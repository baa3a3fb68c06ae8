/**
 Outages during a change. Each pass probes some of the participants and remembers when each was first found down; a node
 is confirmed unavailable once its outage has lasted long enough. What is remembered is exactly since when no probe
 succeeded.
 */
module Outages {
  import opened Ring
  import opened Topology
  import opened Removal

  datatype Ping = Ping(node: NodeId, healthy: bool)

  /** One pass: who takes part, whom it probed with what result, and when. */
  datatype Pass = Pass(candidates: set<NodeId>, probes: seq<Ping>, at: Instant)

  type Downtime = map<NodeId, Instant>

  /** A pass probes participants, each at most once. */
  ghost predicate PassValid(p: Pass) {
    && (forall x :: x in p.probes ==> x.node in p.candidates)
    && (forall i, j :: 0 <= i < j < |p.probes| ==> p.probes[i].node != p.probes[j].node)
  }

  function NoteProbe(o: Downtime, x: Ping, at: Instant): Downtime {
    if x.healthy then o - {x.node} else if x.node in o then o else o[x.node := at]
  }

  function NoteProbes(o: Downtime, probes: seq<Ping>, at: Instant): Downtime {
    if probes == [] then o else NoteProbe(NoteProbes(o, probes[..|probes| - 1], at), probes[|probes| - 1], at)
  }

  function Among(o: Downtime, candidates: set<NodeId>): Downtime {
    map n | n in o && n in candidates :: o[n]
  }

  function AfterPass(o: Downtime, p: Pass): Downtime {
    NoteProbes(Among(o, p.candidates), p.probes, p.at)
  }

  function AfterPasses(passes: seq<Pass>): Downtime {
    if passes == [] then map[] else AfterPass(AfterPasses(passes[..|passes| - 1]), passes[|passes| - 1])
  }

  /** The node was found down by the pass, and has been down long enough. */
  predicate LongDown(o: Downtime, probes: seq<Ping>, n: NodeId, delay: nat, now: Instant) {
    Ping(n, false) in probes && n in o && o[n] + delay <= now
  }

  /** The effect of a pass on one node. */
  lemma {:induction false} ProbedOnce(o: Downtime, probes: seq<Ping>, at: Instant, n: NodeId)
    requires forall i, j :: 0 <= i < j < |probes| ==> probes[i].node != probes[j].node
    ensures var after := NoteProbes(o, probes, at);
            if Ping(n, true) in probes then n !in after
            else if Ping(n, false) in probes then n in after && after[n] == if n in o then o[n] else at
            else (n in after <==> n in o) && (n in o ==> after[n] == o[n])
  {
    if probes != [] {
      var init, last := probes[..|probes| - 1], probes[|probes| - 1];
      ProbedOnce(o, init, at, n);
      assert probes == init + [last];
      if last.node == n {
        assert Ping(n, true) !in init && Ping(n, false) !in init;
      } else {
        assert forall healthy :: Ping(n, healthy) in probes <==> Ping(n, healthy) in init;
      }
    }
  }

  /** Somebody is confirmed if and only if somebody has been down long enough. */
  ghost predicate Judged(o: Downtime, probes: seq<Ping>, delay: nat, now: Instant, confirmed: Option<NodeId>) {
    if confirmed.Some? then LongDown(o, probes, confirmed.value, delay, now)
    else forall n :: !LongDown(o, probes, n, delay, now)
  }

  /** The loop of a pass: the first probed node whose outage has lasted long enough is confirmed. */
  method Scan(o: Downtime, p: Pass, delay: nat) returns (after: Downtime, confirmed: Option<NodeId>)
    requires PassValid(p)
    ensures after == AfterPass(o, p) && Judged(after, p.probes, delay, p.at, confirmed)
  {
    after, confirmed := Among(o, p.candidates), None;
    ghost var kept := after;
    for i := 0 to |p.probes|
      invariant after == NoteProbes(kept, p.probes[..i], p.at) && Judged(after, p.probes[..i], delay, p.at, confirmed)
    {
      var x := p.probes[i];
      JudgeOneMore(kept, p.probes, i, p.at, delay, confirmed);
      if x.healthy {
        after := after - {x.node};
      } else {
        if x.node !in after { after := after[x.node := p.at]; }
        if confirmed.None? && after[x.node] + delay <= p.at { confirmed := Some(x.node); }
      }
    }
    assert p.probes[..|p.probes|] == p.probes;
  }

  /** A further probe changes nothing for the nodes probed before it, and decides for its own. */
  lemma {:induction false} JudgeOneMore(o: Downtime, probes: seq<Ping>, i: nat, at: Instant, delay: nat,
                                        confirmed: Option<NodeId>)
    requires i < |probes| && forall j, k :: 0 <= j < k < |probes| ==> probes[j].node != probes[k].node
    requires Judged(NoteProbes(o, probes[..i], at), probes[..i], delay, at, confirmed)
    ensures var x, after := probes[i], NoteProbes(o, probes[..i + 1], at);
            && after == NoteProbe(NoteProbes(o, probes[..i], at), x, at)
            && Judged(after, probes[..i + 1], delay, at,
                      if confirmed.None? && !x.healthy && after[x.node] + delay <= at then Some(x.node) else confirmed)
  {
    var x, before, after := probes[i], NoteProbes(o, probes[..i], at), NoteProbes(o, probes[..i + 1], at);
    assert probes[..i + 1] == probes[..i] + [x] && probes[..i + 1][..i] == probes[..i];
    assert forall y :: y in probes[..i] ==> y.node != x.node;
    assert after == NoteProbe(before, x, at);
    forall n
      ensures LongDown(after, probes[..i + 1], n, delay, at)
         <==> if n == x.node then !x.healthy && after[n] + delay <= at else LongDown(before, probes[..i], n, delay, at)
    {
      assert Ping(n, false) in probes[..i + 1] <==> Ping(n, false) in probes[..i] || x == Ping(n, false);
    }
  }

  // ----- What is remembered -----

  predicate Down(p: Pass, n: NodeId) {
    Ping(n, false) in p.probes
  }

  /** The node answered, or no longer takes part. */
  predicate Up(p: Pass, n: NodeId) {
    n !in p.candidates || Ping(n, true) in p.probes
  }

  ghost predicate PassesValid(passes: seq<Pass>) {
    && (forall i :: 0 <= i < |passes| ==> PassValid(passes[i]))
    && (forall i, j :: 0 <= i <= j < |passes| ==> passes[i].at <= passes[j].at)
  }

  /** Found down at pass i, and never up since. */
  ghost predicate DownSince(passes: seq<Pass>, n: NodeId, i: nat) {
    i < |passes| && Down(passes[i], n) && forall j :: i <= j < |passes| ==> !Up(passes[j], n)
  }

  lemma PassEffect(o: Downtime, p: Pass, n: NodeId)
    requires PassValid(p)
    ensures n in AfterPass(o, p) <==> !Up(p, n) && (n in o || Down(p, n))
    ensures n in AfterPass(o, p) ==> AfterPass(o, p)[n] == if n in o then o[n] else p.at
  {
    ProbedOnce(Among(o, p.candidates), p.probes, p.at, n);
  }

  lemma {:induction false} RememberedIsDown(passes: seq<Pass>, n: NodeId) returns (i: nat)
    requires PassesValid(passes) && n in AfterPasses(passes)
    ensures DownSince(passes, n, i) && passes[i].at == AfterPasses(passes)[n]
  {
    var m := |passes| - 1;
    var before := AfterPasses(passes[..m]);
    PassEffect(before, passes[m], n);
    if n in before {
      i := RememberedIsDown(passes[..m], n);
    } else {
      i := m;
    }
  }

  lemma {:induction false} DownIsRemembered(passes: seq<Pass>, n: NodeId, i: nat)
    requires PassesValid(passes) && DownSince(passes, n, i)
    ensures n in AfterPasses(passes) && AfterPasses(passes)[n] <= passes[i].at
  {
    var m := |passes| - 1;
    var before := AfterPasses(passes[..m]);
    PassEffect(before, passes[m], n);
    if i < m {
      DownIsRemembered(passes[..m], n, i);
    } else if n in before {
      var j := RememberedIsDown(passes[..m], n);
    }
  }

  /** After any passes, a node counts as down for some time if and only if it was found down at least that long ago and has
      not answered since. */
  lemma {:induction false} LongDownMeansUnanswered(passes: seq<Pass>, n: NodeId, delay: nat, now: Instant)
    requires PassesValid(passes)
    ensures n in AfterPasses(passes) && AfterPasses(passes)[n] + delay <= now
       <==> exists i: nat :: DownSince(passes, n, i) && passes[i].at + delay <= now
  {
    if n in AfterPasses(passes) && AfterPasses(passes)[n] + delay <= now {
      var i := RememberedIsDown(passes, n);
    }
    if i: nat :| DownSince(passes, n, i) && passes[i].at + delay <= now {
      DownIsRemembered(passes, n, i);
    }
  }
}
