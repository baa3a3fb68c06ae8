/**
 A mergeable change can always be published. From any state of any run, whatever fences are left and whatever is still on
 the streams, the executor can fence the members, let the required streams catch up and publish.
 */
module MergeProgress {
  import opened Ring
  import opened Topology
  import opened Placement
  import opened Ranges
  import opened Cluster
  import opened Merge
  import opened MergeRun
  import opened Epochs
  import opened Runs
  import Coordinator

  /** The longer run goes on from the shorter, and the coordinator's durable state is still the same. */
  ghost predicate GoesOn(h: VnodeHash, run: seq<State>, longer: seq<State>) {
    && IsRun(h, run) && IsRun(h, longer) && |run| <= |longer| && run == longer[..|run|]
    && Last(longer).st == Last(run).st && HasPlacement(Last(run).st.committed)
  }

  function Last(run: seq<State>): State
    requires |run| > 0
  {
    run[|run| - 1]
  }

  lemma Onward(a: seq<State>, b: seq<State>, c: seq<State>)
    requires |a| <= |b| <= |c| && a == b[..|a|] && b == c[..|b|]
    ensures a == c[..|a|]
  {
  }

  lemma GoesOnAndOn(h: VnodeHash, a: seq<State>, b: seq<State>, c: seq<State>)
    requires GoesOn(h, a, b) && GoesOn(h, b, c)
    ensures GoesOn(h, a, c)
  {
    Onward(a, b, c);
  }

  lemma StepsExtended(h: VnodeHash, run: seq<State>, s': State)
    requires |run| > 0 && Steps(h, run) && Step(h, Last(run), s')
    ensures Steps(h, run + [s'])
  {
    var step := (a: State, b: State) => Step(h, a, b);
    forall i | 0 <= i && i + 1 < |run| ensures step(run[i], run[i + 1]) {
      assert StepAt(h, run, i);
    }
    Longer(run, step, s');
    forall i | 0 <= i && i + 1 < |run + [s']| ensures StepAt(h, run + [s'], i) {
      assert step((run + [s'])[i], (run + [s'])[i + 1]);
    }
  }

  lemma Extended(h: VnodeHash, run: seq<State>, s': State)
    requires IsRun(h, run) && Step(h, Last(run), s')
    ensures IsRun(h, run + [s'])
  {
    StepsExtended(h, run, s');
  }

  /** One more step within the epoch. */
  lemma Extend(h: VnodeHash, run: seq<State>, s': State) returns (longer: seq<State>)
    requires IsRun(h, run) && Within(Last(run), s') && s'.st == Last(run).st
    ensures GoesOn(h, run, longer) && Last(longer) == s'
  {
    longer := run + [s'];
    Extended(h, run, s');
  }

  // ----- Single steps -----

  lemma Released(e: Setting, s: State)
    ensures Next(e, s, s.(exec := Idle))
  {
    assert Release(s, s.(exec := Idle));
  }

  lemma FencingStarted(e: Setting, s: State, target: Snapshot)
    requires s.exec.Idle?
    ensures Next(e, s, s.(exec := Fencing(target, {})))
  {
    assert StartFencing(s, s.(exec := Fencing(target, {})), target);
  }

  lemma Installed(e: Setting, s: State, n: NodeId)
    ensures Next(e, s, s.(installed := s.installed + {n}))
  {
    assert Install(s, s.(installed := s.installed + {n}), n);
  }

  function Fenced(s: State, n: NodeId): State
    requires s.exec.Fencing?
  {
    s.(fences := s.fences + {n}, exec := s.exec.(done := s.exec.done + {n}))
  }

  lemma MemberFenced(e: Setting, s: State, n: NodeId)
    requires s.exec.Fencing? && n in s.installed
    ensures Next(e, s, Fenced(s, n))
  {
    assert FenceMember(s, Fenced(s, n), n);
  }

  lemma SnapshotTaken(e: Setting, s: State)
    requires s.exec.Fencing? && e.members <= s.exec.done
    ensures Next(e, s, s.(exec := Checking(s.exec.target, s.st, None, {})))
  {
    assert TakeSnapshot(e, s, s.(exec := Checking(s.exec.target, s.st, None, {})));
  }

  function Delivered(s: State, p: Pair): State
    requires Applied(s, p) < |Stream(s, p)|
  {
    s.(held := s.held[p.follower := Held(s, p.follower) + {Stream(s, p)[Applied(s, p)]}],
       applied := s.applied[p := Applied(s, p) + 1])
  }

  lemma EntryDelivered(e: Setting, s: State, p: Pair)
    requires p.follower in s.installed && Applied(s, p) < |Stream(s, p)|
    ensures Next(e, s, Delivered(s, p))
  {
    assert Deliver(s, Delivered(s, p), p);
  }

  function HeadRead(s: State, p: Pair): State
    requires s.exec.Checking?
  {
    s.(exec := s.exec.(head := Some((p, |Stream(s, p)|))))
  }

  lemma HeadIsRead(e: Setting, s: State, p: Pair)
    requires s.exec.Checking?
    ensures Next(e, s, HeadRead(s, p))
  {
    assert ReadHead(s, HeadRead(s, p), p);
  }

  function CursorRead(s: State, p: Pair): State
    requires s.exec.Checking?
  {
    s.(exec := s.exec.(head := None, caughtUp := s.exec.caughtUp + {p}))
  }

  lemma CursorIsRead(e: Setting, s: State, p: Pair)
    requires s.exec.Checking? && s.exec.head == Some((p, |Stream(s, p)|)) && Applied(s, p) >= |Stream(s, p)|
    ensures Next(e, s, CursorRead(s, p))
  {
    assert ReadCursor(s, CursorRead(s, p));
  }

  // ----- Phases -----

  /** The executor works on the target and has all of these members fenced. */
  ghost predicate FencedAll(s: State, target: Snapshot, ns: set<NodeId>) {
    s.exec.Fencing? && s.exec.target == target && ns <= s.exec.done
  }

  /** It has the durable state before it, and found all of these streams caught up. */
  ghost predicate CheckedAll(s: State, target: Snapshot, ps: set<Pair>) {
    s.exec.Checking? && s.exec.target == target && s.exec.snapshot == s.st && ps <= s.exec.caughtUp
  }

  lemma StartOver(h: VnodeHash, run: seq<State>, target: Snapshot) returns (longer: seq<State>)
    requires IsRun(h, run) && HasPlacement(Last(run).st.committed)
    ensures GoesOn(h, run, longer) && FencedAll(Last(longer), target, {})
  {
    var e, s := EpochSetting(Last(run).st.committed), Last(run);
    Released(e, s);
    var idle := Extend(h, run, s.(exec := Idle));
    FencingStarted(e, Last(idle), target);
    longer := Extend(h, idle, Last(idle).(exec := Fencing(target, {})));
    GoesOnAndOn(h, run, idle, longer);
  }

  lemma FenceOne(h: VnodeHash, run: seq<State>, target: Snapshot, ns: set<NodeId>, n: NodeId) returns (longer: seq<State>)
    requires IsRun(h, run) && HasPlacement(Last(run).st.committed) && FencedAll(Last(run), target, ns)
    ensures GoesOn(h, run, longer) && FencedAll(Last(longer), target, ns + {n})
  {
    var e, s := EpochSetting(Last(run).st.committed), Last(run);
    Installed(e, s, n);
    var there := Extend(h, run, s.(installed := s.installed + {n}));
    MemberFenced(e, Last(there), n);
    longer := Extend(h, there, Fenced(Last(there), n));
    GoesOnAndOn(h, run, there, longer);
  }

  lemma {:induction false} FenceAll(h: VnodeHash, run: seq<State>, target: Snapshot, ns: set<NodeId>)
    returns (longer: seq<State>)
    requires IsRun(h, run) && HasPlacement(Last(run).st.committed) && FencedAll(Last(run), target, {})
    ensures GoesOn(h, run, longer) && FencedAll(Last(longer), target, ns)
    decreases ns
  {
    longer := run;
    if ns != {} {
      var n :| n in ns;
      var most := FenceAll(h, run, target, ns - {n});
      longer := FenceOne(h, most, target, ns - {n}, n);
      GoesOnAndOn(h, run, most, longer);
    }
  }

  lemma Look(h: VnodeHash, run: seq<State>, target: Snapshot) returns (longer: seq<State>)
    requires IsRun(h, run) && HasPlacement(Last(run).st.committed)
    requires FencedAll(Last(run), target, Ids(Last(run).st.committed.members))
    ensures GoesOn(h, run, longer) && CheckedAll(Last(longer), target, {})
  {
    var s := Last(run);
    SnapshotTaken(EpochSetting(s.st.committed), s);
    longer := Extend(h, run, s.(exec := Checking(s.exec.target, s.st, None, {})));
  }

  function Behind(s: State, p: Pair): nat {
    if Applied(s, p) < |Stream(s, p)| then |Stream(s, p)| - Applied(s, p) else 0
  }

  /** The follower applies what is left of the stream. */
  lemma {:induction false} Drain(h: VnodeHash, run: seq<State>, p: Pair) returns (longer: seq<State>)
    requires IsRun(h, run) && HasPlacement(Last(run).st.committed) && p.follower in Last(run).installed
    ensures GoesOn(h, run, longer) && Last(longer).exec == Last(run).exec && Behind(Last(longer), p) == 0
    decreases Behind(Last(run), p)
  {
    longer := run;
    var s := Last(run);
    if Applied(s, p) < |Stream(s, p)| {
      EntryDelivered(EpochSetting(s.st.committed), s, p);
      var next := Extend(h, run, Delivered(s, p));
      longer := Drain(h, next, p);
      GoesOnAndOn(h, run, next, longer);
    }
  }

  lemma Compare(h: VnodeHash, run: seq<State>, target: Snapshot, ps: set<Pair>, p: Pair) returns (longer: seq<State>)
    requires IsRun(h, run) && HasPlacement(Last(run).st.committed) && CheckedAll(Last(run), target, ps)
    requires Behind(Last(run), p) == 0
    ensures GoesOn(h, run, longer) && CheckedAll(Last(longer), target, ps + {p})
  {
    var e, s := EpochSetting(Last(run).st.committed), Last(run);
    HeadIsRead(e, s, p);
    var asked := Extend(h, run, HeadRead(s, p));
    CursorIsRead(e, Last(asked), p);
    longer := Extend(h, asked, CursorRead(Last(asked), p));
    GoesOnAndOn(h, run, asked, longer);
  }

  lemma CheckOne(h: VnodeHash, run: seq<State>, target: Snapshot, ps: set<Pair>, p: Pair) returns (longer: seq<State>)
    requires IsRun(h, run) && HasPlacement(Last(run).st.committed) && CheckedAll(Last(run), target, ps)
    ensures GoesOn(h, run, longer) && CheckedAll(Last(longer), target, ps + {p})
  {
    var s := Last(run);
    Installed(EpochSetting(s.st.committed), s, p.follower);
    var there := Extend(h, run, s.(installed := s.installed + {p.follower}));
    var drained := Drain(h, there, p);
    GoesOnAndOn(h, run, there, drained);
    longer := Compare(h, drained, target, ps, p);
    GoesOnAndOn(h, run, drained, longer);
  }

  lemma {:induction false} CheckAll(h: VnodeHash, run: seq<State>, target: Snapshot, ps: set<Pair>)
    returns (longer: seq<State>)
    requires IsRun(h, run) && HasPlacement(Last(run).st.committed) && CheckedAll(Last(run), target, {})
    ensures GoesOn(h, run, longer) && CheckedAll(Last(longer), target, ps)
    decreases ps
  {
    longer := run;
    if ps != {} {
      var p :| p in ps;
      var most := CheckAll(h, run, target, ps - {p});
      longer := CheckOne(h, most, target, ps - {p}, p);
      GoesOnAndOn(h, run, most, longer);
    }
  }

  /** A change whose merge can be proved can be brought to the locked check. */
  lemma MergeCanBeChecked(h: VnodeHash, run: seq<State>, target: Snapshot) returns (longer: seq<State>)
    requires IsRun(h, run) && MergeOf(h, Last(run).st.committed, target) && Mergeable(Last(run).st, target)
    ensures GoesOn(h, run, longer) && MayMerge(h, Last(longer)) && Last(longer).exec.target == target
  {
    var st := Last(run).st;
    var started := StartOver(h, run, target);
    var fenced := FenceAll(h, started, target, Ids(st.committed.members));
    GoesOnAndOn(h, run, started, fenced);
    var looked := Look(h, fenced, target);
    GoesOnAndOn(h, run, fenced, looked);
    longer := CheckAll(h, looked, target, RequiredPairs(st, target));
    GoesOnAndOn(h, run, looked, longer);
  }

  /** The state the coordinator publishes, and the epoch that begins with it. */
  ghost function Published(h: VnodeHash, s: State): State
    requires MayMerge(h, s) && s.st.active.Some? && s.st.active.value.target == s.exec.target
  {
    var st := Coordinator.PublishedWith(s.st, Tasks(CarriedOver(h, s), []), true);
    State(st, s.held, map[], map[], UnfencedKeys(st), {}, {}, s.fences, Idle)
  }

  lemma PublishedIsMerged(h: VnodeHash, s: State)
    requires MayMerge(h, s) && s.st.active.Some? && s.st.active.value.target == s.exec.target
    requires Coordinator.WithinTaskLimit(s.exec.target)
    ensures exists id :: Coordinator.PublishMerged(s.st, Published(h, s).st, id, CarriedOver(h, s))
  {
    var id := Coordinator.IdentityOf(s.st.active.value);
    assert Coordinator.PublishMerged(s.st, Published(h, s).st, id, CarriedOver(h, s));
  }

  lemma PublishedBegins(h: VnodeHash, s: State)
    requires MayMerge(h, s) && s.st.active.Some? && s.st.active.value.target == s.exec.target
    ensures Begins(s, Published(h, s)) && Published(h, s).seeded == UnfencedKeys(Published(h, s).st)
    ensures Published(h, s).st.committed == s.exec.target
  {
  }

  lemma PublishedIsStep(h: VnodeHash, s: State)
    requires MayMerge(h, s) && s.st.active.Some? && s.st.active.value.target == s.exec.target
    requires Coordinator.WithinTaskLimit(s.exec.target)
    ensures MergePublished(h, s, Published(h, s)) && Published(h, s).st.committed == s.exec.target
  {
    PublishedIsMerged(h, s);
    PublishedBegins(h, s);
  }

  lemma PublishChecked(h: VnodeHash, ready: seq<State>) returns (longer: seq<State>)
    requires IsRun(h, ready) && MayMerge(h, Last(ready)) && Last(ready).st.active.Some?
    requires Last(ready).st.active.value.target == Last(ready).exec.target
    requires Coordinator.WithinTaskLimit(Last(ready).exec.target)
    ensures |longer| == |ready| + 1 && longer[..|ready|] == ready && longer[|longer| - 2] == Last(ready)
    ensures Last(longer) == Published(h, Last(ready)) && IsRun(h, longer)
  {
    PublishedIsStep(h, Last(ready));
    Extended(h, ready, Published(h, Last(ready)));
    longer := ready + [Published(h, Last(ready))];
  }

  /** From any state of any run, a pending change whose merge can be proved can be published as a direct merge: the last
      step of the longer run is its publication. */
  lemma MergeCanPublish(h: VnodeHash, run: seq<State>, target: Snapshot) returns (last: State, longer: seq<State>)
    requires IsRun(h, run) && Last(run).st.active.Some? && Last(run).st.active.value.target == target
    requires MergeOf(h, Last(run).st.committed, target) && Mergeable(Last(run).st, target)
    requires Coordinator.WithinTaskLimit(target)
    ensures IsRun(h, longer) && |run| < |longer| && run == longer[..|run|] && longer[|longer| - 2] == last
    ensures MergePublished(h, last, Last(longer)) && Last(longer).st.committed == target
  {
    var ready := MergeCanBeChecked(h, run, target);
    last := Last(ready);
    longer := PublishChecked(h, ready);
    Onward(run, ready, longer);
    PublishedIsStep(h, last);
  }
}
