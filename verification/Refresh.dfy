/**
 The client's background topology refresh. Triggers raise a minimum epoch, count themselves and try to start a
 worker; a worker handles triggers until none is left, then gives up the flag and looks once more. Every step is
 one atomic operation, and triggers and workers interleave in any order and number.
 */
module Refresh {
  import opened Topology

  type Epoch = nat

  /** Where a trigger stands: in front of its `fetch_max`, its `fetch_add`, its `compare_exchange`, or returned. */
  datatype TriggerAt = Raising | Counting | Claiming | Returned

  /** `number` is how many triggers had counted themselves before this one. */
  datatype Trigger = Trigger(epoch: Epoch, at: TriggerAt, number: nat)

  /** Where a worker stands, with the locals it still needs. */
  datatype Worker =
    | LoadGeneration
    | LoadEpoch(handled: nat)
    | Asking(handled: nat, epoch: Epoch)
    | Compare(handled: nat)
    | Release(newest: nat)
    | Recheck(newest: nat)
    | Reclaim
    | Stopped

  /** A finished refresh: the generation its worker had read and the epoch it asked for. */
  datatype Attempt = Attempt(handled: nat, epoch: Epoch)

  /** The three atomics, every trigger and worker there has been, and the finished attempts. */
  datatype World = World(minimumEpoch: Epoch, generation: nat, running: bool, triggers: seq<Trigger>, workers: seq<Worker>,
                         attempts: set<Attempt>)

  const START := World(0, 0, false, [], [], {})

  // ----- Steps -----

  ghost predicate CallTrigger(w: World, v: World, epoch: Epoch) {
    v == w.(triggers := w.triggers + [Trigger(epoch, Raising, 0)])
  }

  /** The next operation of trigger i. A successful claim spawns a worker. */
  function TriggerSteps(w: World, i: nat): World
    requires i < |w.triggers|
  {
    var t := w.triggers[i];
    match t.at
    case Raising => w.(minimumEpoch := Max(w.minimumEpoch, t.epoch), triggers := w.triggers[i := t.(at := Counting)])
    case Counting =>
      w.(generation := w.generation + 1, triggers := w.triggers[i := Trigger(t.epoch, Claiming, w.generation)])
    case Claiming =>
      var returned := w.(triggers := w.triggers[i := t.(at := Returned)]);
      if w.running then returned else returned.(running := true, workers := w.workers + [LoadGeneration])
    case Returned => w
  }

  /** The next operation of worker i. */
  function WorkerSteps(w: World, i: nat): World
    requires i < |w.workers|
  {
    match w.workers[i]
    case LoadGeneration => w.(workers := w.workers[i := LoadEpoch(w.generation)])
    case LoadEpoch(handled) => w.(workers := w.workers[i := Asking(handled, w.minimumEpoch)])
    case Asking(handled, epoch) =>
      w.(workers := w.workers[i := Compare(handled)], attempts := w.attempts + {Attempt(handled, epoch)})
    case Compare(handled) =>
      w.(workers := w.workers[i := if w.generation > handled then LoadGeneration else Release(w.generation)])
    case Release(newest) => w.(running := false, workers := w.workers[i := Recheck(newest)])
    case Recheck(newest) => w.(workers := w.workers[i := if w.generation > newest then Reclaim else Stopped])
    case Reclaim =>
      if w.running then w.(workers := w.workers[i := Stopped])
      else w.(running := true, workers := w.workers[i := LoadGeneration])
    case Stopped => w
  }

  ghost predicate Step(w: World, v: World) {
    || (exists epoch :: CallTrigger(w, v, epoch))
    || (exists i :: 0 <= i < |w.triggers| && v == TriggerSteps(w, i))
    || (exists i :: 0 <= i < |w.workers| && v == WorkerSteps(w, i))
  }

  ghost predicate StepAt(run: seq<World>, i: nat)
    requires i + 1 < |run|
  {
    Step(run[i], run[i + 1])
  }

  ghost predicate IsRun(run: seq<World>) {
    && |run| > 0 && run[0] == START
    && forall i :: 0 <= i && i + 1 < |run| ==> StepAt(run, i)
  }

  // ----- Invariants -----

  /** The worker holds the running flag. */
  predicate Holds(x: Worker) {
    x.LoadGeneration? || x.LoadEpoch? || x.Asking? || x.Compare? || x.Release?
  }

  predicate Counted(t: Trigger) {
    t.at.Claiming? || t.at.Returned?
  }

  /** The flag is set exactly while one worker holds it. */
  ghost predicate OneHolder(w: World) {
    && (forall i, j :: 0 <= i < |w.workers| && 0 <= j < |w.workers| && Holds(w.workers[i]) && Holds(w.workers[j]) ==> i == j)
    && (forall i :: 0 <= i < |w.workers| && Holds(w.workers[i]) ==> w.running)
    && (w.running ==> exists i :: 0 <= i < |w.workers| && Holds(w.workers[i]))
  }

  /** Whoever asks for this epoch after reading this generation answers every trigger it counts. */
  ghost predicate Answers(w: World, handled: nat, epoch: Epoch) {
    && handled <= w.generation
    && forall i :: 0 <= i < |w.triggers| && Counted(w.triggers[i]) && w.triggers[i].number < handled
               ==> w.triggers[i].epoch <= epoch
  }

  ghost predicate TriggerSound(w: World, t: Trigger) {
    && (!t.at.Raising? ==> t.epoch <= w.minimumEpoch)
    && (Counted(t) ==> t.number < w.generation)
  }

  ghost predicate Attempted(w: World, handled: nat) {
    exists a :: a in w.attempts && a.handled == handled
  }

  ghost predicate WorkerSound(w: World, x: Worker) {
    match x
    case LoadEpoch(handled) => handled <= w.generation
    case Asking(handled, epoch) => Answers(w, handled, epoch)
    case Compare(handled) => Attempted(w, handled)
    case Release(newest) => Attempted(w, newest)
    case Recheck(newest) => Attempted(w, newest)
    case _ => true
  }

  ghost predicate AttemptsSound(w: World) {
    forall a :: a in w.attempts ==> Answers(w, a.handled, a.epoch)
  }

  /** Some attempt counted every trigger there has been. */
  ghost predicate CaughtUp(w: World) {
    w.generation == 0 || exists a :: a in w.attempts && a.handled >= w.generation
  }

  ghost predicate TriggerPending(w: World, i: nat) {
    i < |w.triggers| && w.triggers[i].at.Claiming?
  }

  ghost predicate WorkerPending(w: World, i: nat) {
    i < |w.workers| && (w.workers[i].Recheck? || w.workers[i].Reclaim?)
  }

  /** Somebody will still look at the generation. */
  ghost predicate Pending(w: World) {
    || w.running
    || (exists i :: TriggerPending(w, i))
    || (exists i :: WorkerPending(w, i))
  }

  ghost predicate Sound(w: World) {
    && (forall i :: 0 <= i < |w.triggers| ==> TriggerSound(w, w.triggers[i]))
    && (forall i :: 0 <= i < |w.workers| ==> WorkerSound(w, w.workers[i]))
    && AttemptsSound(w)
  }

  ghost predicate Inv(w: World) {
    OneHolder(w) && Sound(w) && (CaughtUp(w) || Pending(w))
  }

  lemma CallKeepsInv(w: World, v: World, epoch: Epoch)
    requires Inv(w) && CallTrigger(w, v, epoch)
    ensures Inv(v)
  {
    if i :| TriggerPending(w, i) {
      assert TriggerPending(v, i);
    }
    if i :| WorkerPending(w, i) {
      assert WorkerPending(v, i);
    }
  }

  lemma TriggerKeepsHolder(w: World, i: nat)
    requires OneHolder(w) && i < |w.triggers|
    ensures OneHolder(TriggerSteps(w, i))
  {
    var v := TriggerSteps(w, i);
    if w.running {
      var j :| 0 <= j < |w.workers| && Holds(w.workers[j]);
      assert Holds(v.workers[j]);
    } else if v.running {
      assert Holds(v.workers[|w.workers|]);
    }
  }

  /** A trigger that counts itself after an attempt read the generation is not among those the attempt answers. */
  lemma TriggerKeepsSound(w: World, i: nat)
    requires Sound(w) && i < |w.triggers|
    ensures Sound(TriggerSteps(w, i))
  {
    var v := TriggerSteps(w, i);
    assert forall h, e :: Answers(w, h, e) ==> Answers(v, h, e);
    forall j | 0 <= j < |v.workers| ensures WorkerSound(v, v.workers[j]) {
      if j < |w.workers| {
        assert WorkerSound(w, w.workers[j]);
      }
    }
  }

  lemma TriggerKeepsPending(w: World, i: nat)
    requires (CaughtUp(w) || Pending(w)) && i < |w.triggers|
    ensures CaughtUp(TriggerSteps(w, i)) || Pending(TriggerSteps(w, i))
  {
    var v := TriggerSteps(w, i);
    if w.triggers[i].at.Counting? {
      assert TriggerPending(v, i);
    } else if !w.running && !CaughtUp(w) {
      if j :| TriggerPending(w, j) && j != i {
        assert TriggerPending(v, j);
      } else if j :| WorkerPending(w, j) {
        assert WorkerPending(v, j);
      }
    }
  }

  lemma WorkerKeepsHolder(w: World, i: nat)
    requires OneHolder(w) && i < |w.workers|
    ensures OneHolder(WorkerSteps(w, i))
  {
    var v := WorkerSteps(w, i);
    if v.running {
      if Holds(w.workers[i]) || !w.running {
        assert Holds(v.workers[i]);
      } else {
        var j :| 0 <= j < |w.workers| && Holds(w.workers[j]);
        assert Holds(v.workers[j]);
      }
    }
  }

  lemma WorkerKeepsSound(w: World, i: nat)
    requires Sound(w) && i < |w.workers|
    ensures Sound(WorkerSteps(w, i))
  {
    var v := WorkerSteps(w, i);
    assert WorkerSound(w, w.workers[i]);
    assert forall h, e :: Answers(w, h, e) ==> Answers(v, h, e);
    assert forall h :: Attempted(w, h) ==> Attempted(v, h);
    if w.workers[i].LoadEpoch? {
      assert forall j :: 0 <= j < |w.triggers| ==> TriggerSound(w, w.triggers[j]);
    } else if w.workers[i].Asking? {
      assert Attempt(w.workers[i].handled, w.workers[i].epoch) in v.attempts;
    }
  }

  lemma WorkerKeepsPending(w: World, i: nat)
    requires Inv(w) && i < |w.workers|
    ensures CaughtUp(WorkerSteps(w, i)) || Pending(WorkerSteps(w, i))
  {
    var v := WorkerSteps(w, i);
    assert WorkerSound(w, w.workers[i]);
    if w.workers[i].Release? || w.workers[i].Recheck? {
      if v.workers[i] != Stopped {
        assert WorkerPending(v, i);
      }
    } else if !v.running && !CaughtUp(v) {
      if j :| TriggerPending(w, j) {
        assert TriggerPending(v, j);
      } else if j :| WorkerPending(w, j) {
        assert WorkerPending(v, j);
      }
    }
  }

  lemma StepKeepsInv(w: World, v: World)
    requires Inv(w) && Step(w, v)
    ensures Inv(v)
  {
    if epoch :| CallTrigger(w, v, epoch) {
      CallKeepsInv(w, v, epoch);
    } else if i :| 0 <= i < |w.triggers| && v == TriggerSteps(w, i) {
      TriggerKeepsHolder(w, i);
      TriggerKeepsSound(w, i);
      TriggerKeepsPending(w, i);
    } else {
      var i :| 0 <= i < |w.workers| && v == WorkerSteps(w, i);
      WorkerKeepsHolder(w, i);
      WorkerKeepsSound(w, i);
      WorkerKeepsPending(w, i);
    }
  }

  lemma {:induction false} RunKeepsInv(run: seq<World>, i: nat)
    requires IsRun(run) && i < |run|
    ensures Inv(run[i])
  {
    if i > 0 {
      RunKeepsInv(run, i - 1);
      assert StepAt(run, i - 1);
      StepKeepsInv(run[i - 1], run[i]);
    }
  }

  // ----- Theorems -----

  /** Every trigger has returned and every worker has stopped. */
  ghost predicate Quiescent(w: World) {
    && (forall i :: 0 <= i < |w.triggers| ==> w.triggers[i].at.Returned?)
    && (forall i :: 0 <= i < |w.workers| ==> w.workers[i].Stopped?)
  }

  /** A refresh that read the generation after this trigger was counted asked for at least its epoch. */
  ghost predicate Covered(w: World, t: Trigger) {
    exists a :: a in w.attempts && a.handled > t.number && a.epoch >= t.epoch
  }

  /** No interleaving loses a trigger: when all is quiet, each has been answered by a later attempt for its epoch. */
  lemma NoTriggerIsLost(run: seq<World>, i: nat, j: nat)
    requires IsRun(run) && i < |run| && Quiescent(run[i]) && j < |run[i].triggers|
    ensures Covered(run[i], run[i].triggers[j])
  {
    RunKeepsInv(run, i);
    var w := run[i];
    assert TriggerSound(w, w.triggers[j]);
    var a :| a in w.attempts && a.handled >= w.generation;
    assert Answers(w, a.handled, a.epoch);
  }

  /** A returned trigger that is not answered yet has somebody who still will: work is left in every such state. */
  lemma UnansweredMeansWorkLeft(run: seq<World>, i: nat, j: nat)
    requires IsRun(run) && i < |run| && j < |run[i].triggers| && Counted(run[i].triggers[j])
    ensures Covered(run[i], run[i].triggers[j]) || Pending(run[i])
  {
    RunKeepsInv(run, i);
    var w := run[i];
    assert TriggerSound(w, w.triggers[j]);
    if a :| a in w.attempts && a.handled >= w.generation {
      assert Answers(w, a.handled, a.epoch);
    }
  }

  /** At most one worker is ever between taking the flag and giving it up, so at most one is refreshing. */
  lemma OneWorkerRefreshes(run: seq<World>, i: nat, j: nat, k: nat)
    requires IsRun(run) && i < |run| && j < |run[i].workers| && k < |run[i].workers|
    requires run[i].workers[j].Asking? && run[i].workers[k].Asking?
    ensures j == k
  {
    RunKeepsInv(run, i);
  }

  /** Every finished attempt asked for at least the epoch of every trigger counted when it read the generation. */
  lemma AttemptsAnswerWhatTheyCount(run: seq<World>, i: nat, a: Attempt, j: nat)
    requires IsRun(run) && i < |run| && a in run[i].attempts && j < |run[i].triggers|
    requires Counted(run[i].triggers[j]) && run[i].triggers[j].number < a.handled
    ensures run[i].triggers[j].epoch <= a.epoch
  {
    RunKeepsInv(run, i);
  }
}
