/**
 The background refresh comes to rest. While no trigger is called, every operation of a trigger that has not returned or
 of a worker that has not stopped uses up some of a finite amount of work, so from every reachable state every schedule
 is bounded and ends quiet, with each trigger answered. And no worker asks twice for one generation.
 */
module RefreshProgress {
  import opened Refresh

  // ----- Sums -----

  function Sum(s: seq<nat>): nat {
    if s == [] then 0 else Sum(s[..|s| - 1]) + s[|s| - 1]
  }

  lemma {:induction false} SumUpdate(s: seq<nat>, i: nat, v: nat)
    requires i < |s|
    ensures Sum(s[i := v]) + s[i] == Sum(s) + v
  {
    var n := |s| - 1;
    if i < n {
      assert s[i := v][..n] == s[..n][i := v];
      SumUpdate(s[..n], i, v);
    } else {
      assert s[i := v][..n] == s[..n];
    }
  }

  lemma {:induction false} SumBound(a: seq<nat>, b: seq<nat>, d: nat)
    requires |a| == |b| && forall i :: 0 <= i < |a| ==> a[i] <= b[i] + d
    ensures Sum(a) <= Sum(b) + d * |a|
  {
    if a != [] {
      var n := |a| - 1;
      SumBound(a[..n], b[..n], d);
      assert d * |a| == d * n + d;
    }
  }

  // ----- The work that is left -----

  function TriggerLeft(t: Trigger): nat {
    match t.at
    case Raising => 3
    case Counting => 2
    case Claiming => 1
    case Returned => 0
  }

  /** A worker that read an older generation has another round ahead of it. */
  function WorkerLeft(x: Worker, generation: nat): nat {
    match x
    case LoadGeneration => 7
    case LoadEpoch(handled) => if generation > handled then 14 else 6
    case Asking(handled, _) => if generation > handled then 13 else 5
    case Compare(handled) => if generation > handled then 12 else 4
    case Release(newest) => if generation > newest then 11 else 3
    case Recheck(newest) => if generation > newest then 10 else 2
    case Reclaim => 8
    case Stopped => 0
  }

  function TriggersLeft(ts: seq<Trigger>): (r: seq<nat>)
    ensures |r| == |ts| && forall i :: 0 <= i < |r| ==> r[i] == TriggerLeft(ts[i])
  {
    seq(|ts|, i requires 0 <= i < |ts| => TriggerLeft(ts[i]))
  }

  function WorkersLeft(xs: seq<Worker>, generation: nat): (r: seq<nat>)
    ensures |r| == |xs| && forall i :: 0 <= i < |r| ==> r[i] == WorkerLeft(xs[i], generation)
  {
    seq(|xs|, i requires 0 <= i < |xs| => WorkerLeft(xs[i], generation))
  }

  function Open(ts: seq<Trigger>): (r: seq<nat>)
    ensures |r| == |ts| && forall i :: 0 <= i < |r| ==> r[i] == if ts[i].at.Returned? then 0 else 1
  {
    seq(|ts|, i requires 0 <= i < |ts| => if ts[i].at.Returned? then 0 else 1)
  }

  /** Every worker was started by a trigger that has returned. */
  ghost predicate Started(w: World) {
    |w.workers| + Sum(Open(w.triggers)) <= |w.triggers|
  }

  /** What a trigger's operation can add to the workers' work. */
  function Share(w: World): nat {
    8 * |w.triggers| + 8
  }

  function Left(w: World): nat {
    Share(w) * Sum(TriggersLeft(w.triggers)) + Sum(WorkersLeft(w.workers, w.generation))
  }

  // ----- Every operation uses some up -----

  lemma TriggerUpdate(ts: seq<Trigger>, i: nat, t: Trigger)
    requires i < |ts|
    ensures Sum(TriggersLeft(ts[i := t])) + TriggerLeft(ts[i]) == Sum(TriggersLeft(ts)) + TriggerLeft(t)
    ensures Sum(Open(ts[i := t])) + Open(ts)[i] == Sum(Open(ts)) + if t.at.Returned? then 0 else 1
  {
    assert TriggersLeft(ts[i := t]) == TriggersLeft(ts)[i := TriggerLeft(t)];
    SumUpdate(TriggersLeft(ts), i, TriggerLeft(t));
    assert Open(ts[i := t]) == Open(ts)[i := if t.at.Returned? then 0 else 1];
    SumUpdate(Open(ts), i, if t.at.Returned? then 0 else 1);
  }

  lemma WorkerUpdate(xs: seq<Worker>, g: nat, i: nat, x: Worker)
    requires i < |xs|
    ensures Sum(WorkersLeft(xs[i := x], g)) + WorkerLeft(xs[i], g) == Sum(WorkersLeft(xs, g)) + WorkerLeft(x, g)
  {
    assert WorkersLeft(xs[i := x], g) == WorkersLeft(xs, g)[i := WorkerLeft(x, g)];
    SumUpdate(WorkersLeft(xs, g), i, WorkerLeft(x, g));
  }

  lemma WorkerAdded(xs: seq<Worker>, g: nat, x: Worker)
    ensures Sum(WorkersLeft(xs + [x], g)) == Sum(WorkersLeft(xs, g)) + WorkerLeft(x, g)
  {
    assert WorkersLeft(xs + [x], g)[..|xs|] == WorkersLeft(xs, g);
  }

  /** One less of a larger share outweighs what the share allows. */
  lemma ShareFalls(share: nat, t: nat, t': nat, r: nat, r': nat)
    requires t' + 1 == t && r' < r + share
    ensures share * t' + r' < share * t + r
  {
    assert share * t == share * t' + share;
  }

  /** The workers' side of a trigger's operation: nothing, a generation more, or a worker more. */
  lemma WorkersGain(w: World, i: nat)
    requires Started(w) && i < |w.triggers| && !w.triggers[i].at.Returned?
    ensures var v := TriggerSteps(w, i);
            Sum(WorkersLeft(v.workers, v.generation)) < Sum(WorkersLeft(w.workers, w.generation)) + Share(w)
  {
    var v := TriggerSteps(w, i);
    if w.triggers[i].at.Counting? {
      SumBound(WorkersLeft(w.workers, v.generation), WorkersLeft(w.workers, w.generation), 8);
    } else if w.triggers[i].at.Claiming? && !w.running {
      WorkerAdded(w.workers, w.generation, LoadGeneration);
    }
  }

  lemma TriggersFall(w: World, i: nat)
    requires Started(w) && i < |w.triggers| && !w.triggers[i].at.Returned?
    ensures var v := TriggerSteps(w, i);
            && |v.triggers| == |w.triggers| && Started(v)
            && Sum(TriggersLeft(v.triggers)) + 1 == Sum(TriggersLeft(w.triggers))
  {
    var v := TriggerSteps(w, i);
    TriggerUpdate(w.triggers, i, v.triggers[i]);
    assert v.triggers == w.triggers[i := v.triggers[i]];
  }

  lemma TriggerUsesUp(w: World, i: nat)
    requires Started(w) && i < |w.triggers| && !w.triggers[i].at.Returned?
    ensures Started(TriggerSteps(w, i)) && Left(TriggerSteps(w, i)) < Left(w)
  {
    var v := TriggerSteps(w, i);
    TriggersFall(w, i);
    WorkersGain(w, i);
    ShareFalls(Share(w), Sum(TriggersLeft(w.triggers)), Sum(TriggersLeft(v.triggers)),
               Sum(WorkersLeft(w.workers, w.generation)), Sum(WorkersLeft(v.workers, v.generation)));
  }

  lemma WorkerFalls(w: World, i: nat)
    requires i < |w.workers| && !w.workers[i].Stopped?
    ensures var v := WorkerSteps(w, i);
            && v == w.(running := v.running, attempts := v.attempts, workers := w.workers[i := v.workers[i]])
            && |v.workers| == |w.workers| && WorkerLeft(v.workers[i], w.generation) < WorkerLeft(w.workers[i], w.generation)
  {
  }

  lemma WorkerUsesUp(w: World, i: nat)
    requires Started(w) && i < |w.workers| && !w.workers[i].Stopped?
    ensures Started(WorkerSteps(w, i)) && Left(WorkerSteps(w, i)) < Left(w)
  {
    WorkerFalls(w, i);
    WorkerUpdate(w.workers, w.generation, i, WorkerSteps(w, i).workers[i]);
  }

  /** An operation of a trigger that has not returned or of a worker that has not stopped. */
  ghost predicate Works(w: World, v: World) {
    || (exists i :: 0 <= i < |w.triggers| && !w.triggers[i].at.Returned? && v == TriggerSteps(w, i))
    || (exists i :: 0 <= i < |w.workers| && !w.workers[i].Stopped? && v == WorkerSteps(w, i))
  }

  lemma WorkUsesUp(w: World, v: World)
    requires Started(w) && Works(w, v)
    ensures Started(v) && Left(v) < Left(w)
  {
    if i :| 0 <= i < |w.triggers| && !w.triggers[i].at.Returned? && v == TriggerSteps(w, i) {
      TriggerUsesUp(w, i);
    } else {
      var i :| 0 <= i < |w.workers| && !w.workers[i].Stopped? && v == WorkerSteps(w, i);
      WorkerUsesUp(w, i);
    }
  }

  // ----- Reachable states -----

  lemma CallKeepsStarted(w: World, v: World, epoch: Epoch)
    requires Started(w) && CallTrigger(w, v, epoch)
    ensures Started(v)
  {
    assert Open(v.triggers)[..|w.triggers|] == Open(w.triggers);
  }

  lemma StepKeepsStarted(w: World, v: World)
    requires Started(w) && Step(w, v)
    ensures Started(v)
  {
    if epoch :| CallTrigger(w, v, epoch) {
      CallKeepsStarted(w, v, epoch);
    } else if i :| 0 <= i < |w.triggers| && v == TriggerSteps(w, i) {
      if !w.triggers[i].at.Returned? { TriggerUsesUp(w, i); }
    } else {
      var i :| 0 <= i < |w.workers| && v == WorkerSteps(w, i);
      if !w.workers[i].Stopped? { WorkerUsesUp(w, i); }
    }
  }

  lemma {:induction false} RunKeepsStarted(run: seq<World>, i: nat)
    requires IsRun(run) && i < |run|
    ensures Started(run[i])
  {
    if i > 0 {
      RunKeepsStarted(run, i - 1);
      assert StepAt(run, i - 1);
      StepKeepsStarted(run[i - 1], run[i]);
    }
  }

  // ----- Theorems -----

  ghost predicate WorksAt(schedule: seq<World>, i: nat)
    requires i + 1 < |schedule|
  {
    Works(schedule[i], schedule[i + 1])
  }

  /** What triggers and workers do from here on while no trigger is called. */
  ghost predicate IsSchedule(schedule: seq<World>) {
    |schedule| > 0 && forall i :: 0 <= i && i + 1 < |schedule| ==> WorksAt(schedule, i)
  }

  lemma {:induction false} ScheduleUsesUp(schedule: seq<World>, i: nat)
    requires IsSchedule(schedule) && Started(schedule[0]) && i < |schedule|
    ensures Started(schedule[i]) && Left(schedule[i]) + i <= Left(schedule[0])
  {
    if i > 0 {
      ScheduleUsesUp(schedule, i - 1);
      assert WorksAt(schedule, i - 1);
      WorkUsesUp(schedule[i - 1], schedule[i]);
    }
  }

  /** No operation is left to any trigger or worker. */
  ghost predicate Idle(w: World) {
    forall v :: !Works(w, v)
  }

  /** Only a quiet state has nothing left to do. */
  lemma WorkIsLeftUnlessQuiet(w: World)
    ensures Quiescent(w) <==> Idle(w)
  {
    if !Quiescent(w) {
      if i :| 0 <= i < |w.triggers| && !w.triggers[i].at.Returned? {
        assert Works(w, TriggerSteps(w, i));
      } else {
        var i :| 0 <= i < |w.workers| && !w.workers[i].Stopped?;
        assert Works(w, WorkerSteps(w, i));
      }
    }
  }

  /** From every reachable state, every schedule ends after a bounded number of operations, and one that cannot go on is
      quiet. */
  lemma SchedulesEnd(run: seq<World>, i: nat, schedule: seq<World>)
    requires IsRun(run) && i < |run| && IsSchedule(schedule) && schedule[0] == run[i]
    ensures |schedule| <= Left(run[i]) + 1
    ensures Idle(schedule[|schedule| - 1]) ==> Quiescent(schedule[|schedule| - 1])
  {
    RunKeepsStarted(run, i);
    ScheduleUsesUp(schedule, |schedule| - 1);
    WorkIsLeftUnlessQuiet(schedule[|schedule| - 1]);
  }

  lemma WorkIsStep(w: World, v: World)
    requires Works(w, v)
    ensures Step(w, v)
  {
  }

  lemma {:induction false} ScheduleContinues(run: seq<World>, schedule: seq<World>, n: nat)
    requires IsRun(run) && IsSchedule(schedule) && schedule[0] == run[|run| - 1] && 1 <= n <= |schedule|
    ensures IsRun(run + schedule[1..n])
  {
    if n > 1 {
      ScheduleContinues(run, schedule, n - 1);
      var before, after := run + schedule[1..n - 1], run + schedule[1..n];
      assert after == before + [schedule[n - 1]] && before[|before| - 1] == schedule[n - 2];
      assert WorksAt(schedule, n - 2);
      WorkIsStep(schedule[n - 2], schedule[n - 1]);
      forall i | 0 <= i && i + 1 < |after| ensures StepAt(after, i) {
        if i + 1 < |before| { assert StepAt(before, i); }
      }
    } else {
      assert run + schedule[1..1] == run;
    }
  }

  /** So however the operations interleave, once no trigger is called any more the refresh comes to rest with every trigger
      answered. */
  lemma EveryTriggerIsAnswered(run: seq<World>, schedule: seq<World>, j: nat)
    requires IsRun(run) && IsSchedule(schedule) && schedule[0] == run[|run| - 1]
    requires Idle(schedule[|schedule| - 1])
    requires j < |schedule[|schedule| - 1].triggers|
    ensures Covered(schedule[|schedule| - 1], schedule[|schedule| - 1].triggers[j])
  {
    var n := |schedule|;
    ScheduleContinues(run, schedule, n);
    var whole := run + schedule[1..n];
    assert whole[|whole| - 1] == schedule[n - 1];
    WorkIsLeftUnlessQuiet(schedule[n - 1]);
    NoTriggerIsLost(whole, |whole| - 1, j);
  }

  // ----- One attempt per generation -----

  /** The worker is past its attempt at this generation, and will ask again only for a later one. */
  ghost predicate PastAttempt(w: World, i: nat, handled: nat)
    requires i < |w.workers|
  {
    && handled <= w.generation
    && match w.workers[i]
       case LoadGeneration => w.generation > handled
       case LoadEpoch(h) => handled < h <= w.generation
       case Asking(h, _) => handled < h <= w.generation
       case Compare(h) => handled <= h <= w.generation
       case Release(n) => n >= handled
       case Recheck(n) => n >= handled
       case Reclaim => w.generation > handled
       case Stopped => true
  }

  lemma PastAttemptStays(w: World, v: World, i: nat, handled: nat)
    requires Step(w, v) && i < |w.workers| && PastAttempt(w, i, handled)
    ensures i < |v.workers| && PastAttempt(v, i, handled)
  {
  }

  lemma {:induction false} PastAttemptOn(run: seq<World>, a: nat, b: nat, i: nat, handled: nat)
    requires IsRun(run) && a <= b < |run| && i < |run[a].workers| && PastAttempt(run[a], i, handled)
    ensures i < |run[b].workers| && PastAttempt(run[b], i, handled)
  {
    if a < b {
      PastAttemptOn(run, a, b - 1, i, handled);
      assert StepAt(run, b - 1);
      PastAttemptStays(run[b - 1], run[b], i, handled);
    }
  }

  /** In every run, once a worker has asked for a generation, it asks again only for a later one. */
  lemma AsksOncePerGeneration(run: seq<World>, a: nat, b: nat, i: nat)
    requires IsRun(run) && a + 1 < |run| && i < |run[a].workers| && run[a].workers[i].Asking?
    requires run[a + 1] == WorkerSteps(run[a], i)
    requires a < b < |run| && i < |run[b].workers| && run[b].workers[i].Asking?
    ensures run[b].workers[i].handled > run[a].workers[i].handled
  {
    RunKeepsInv(run, a);
    assert WorkerSound(run[a], run[a].workers[i]);
    PastAttemptOn(run, a + 1, b, i, run[a].workers[i].handled);
  }
}
