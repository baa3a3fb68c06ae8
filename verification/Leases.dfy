/**
 Lease safety over whole runs of the coordinator, restarts included. A restart forgets every grant; the
 coordinator then waits out one lease duration before it acts on any lease. `granted` remembers every
 grant of every incarnation, for the statement only.

 The proofs work on a `View` of the durable state: who is a member, who is fenced, and what the active
 change is about.
 */
module Leases {
  import opened Ring
  import opened Topology
  import opened Placement
  import opened Ranges
  import opened Cluster
  import opened Removal
  import opened Coordinator

  datatype GrantRecord = GrantRecord(node: NodeId, instance: Instance, epoch: nat, expiresAt: Instant)

  /** Who holds the execution lock, and where it is in the two procedures that wait for leases. */
  datatype Executor =
    | Free
    | Busy
    | FailureWait(node: NodeId, identity: Identity, safeAt: Instant)
    | FailureDone(node: NodeId, completed: bool)
    | RecoveryWait(safeAt: Instant)
    | RecoveryQuiet

  datatype Volatile = Volatile(grants: map<NodeId, Grant>, startupAt: Instant, now: Instant, exec: Executor,
                               granted: set<GrantRecord>)

  datatype World = World(st: ClusterState, vol: Volatile)

  // ----- Views -----

  datatype ChangeView = ChangeView(identity: Identity, failed: Option<NodeId>, targetIds: set<NodeId>, phase: Phase,
                                   ready: bool)

  datatype View = View(members: set<NodeId>, fenced: set<NodeId>, active: Option<ChangeView>)

  function ViewOf(st: ClusterState): View {
    View(Ids(st.committed.members), st.fenced,
         if st.active.None? then None
         else var c := st.active.value;
              Some(ChangeView(IdentityOf(c), c.failed, Ids(c.target.members), c.phase, c.activationReady)))
  }

  /** Published but not yet activated: the state in which no lease is granted. */
  predicate AwaitingActivation(v: View) {
    v.active.Some? && Unactivated(v.active.value.phase, v.active.value.ready)
  }

  predicate ViewIdle(v: View) {
    v.active.Some? ==> IsTerminal(v.active.value.phase)
  }

  // ----- Steps of the world -----

  ghost predicate Tick(w: World, w': World) {
    w'.vol.now >= w.vol.now && w' == w.(vol := w.vol.(now := w'.vol.now))
  }

  predicate MayRenew(st: ClusterState, node: NodeId, instance: Instance, epoch: nat) {
    && node != EMPTY_ID && instance != 0 && st.committed.epoch == epoch && node in Ids(st.committed.members)
    && node in st.instances && st.instances[node] == instance && node !in st.fenced
    && !ActivationPending(st)
  }

  /** `renew_node_lease`: the read lock spans the check and the grant. */
  ghost predicate Renew(w: World, w': World, lease: nat, node: NodeId, instance: Instance) {
    && MayRenew(w.st, node, instance, w.st.committed.epoch)
    && var expires := w.vol.now + lease;
       w' == w.(vol := w.vol.(grants := w.vol.grants[node := Grant(instance, w.st.committed.epoch, expires)],
                              granted := w.vol.granted + {GrantRecord(node, instance, w.st.committed.epoch, expires)}))
  }

  ghost predicate Restart(w: World, w': World) {
    w' == w.(vol := w.vol.(grants := map[], startupAt := w.vol.now, exec := Free))
  }

  /** Durable steps that need no execution lock. */
  ghost predicate Unlocked(h: VnodeHash, w: World, w': World) {
    && w' == w.(st := w'.st) && Validate(h, w'.st)
    && (Planning(h, w.st, w'.st) || Bookkeeping(w.st, w'.st) || exists n, i :: Register(w.st, w'.st, n, i))
  }

  ghost predicate Acquire(w: World, w': World) {
    w.vol.exec.Free? && w' == w.(vol := w.vol.(exec := Busy))
  }

  ghost predicate Release(w: World, w': World) {
    w' == w.(vol := w.vol.(exec := Free))
  }

  /** Everything else a change's execution stores: a failure transition takes none of these. A change that supersedes
      another is activated by its own procedure alone, and a change is published once. */
  ghost predicate Locked(h: VnodeHash, w: World, w': World) {
    && w.vol.exec.Busy? && w' == w.(st := w'.st) && Validate(h, w.st) && Validate(h, w'.st)
    && w.st.active.Some? && w.st.active.value.failed == None
    && (|| (exists p :: SetPhase(w.st, w'.st, p))
        || (SetActivationReady(w.st, w'.st) && w.st.active.value.supersedes == None)
        || ResetAttempt(w.st, w'.st)
        || (Publication(h, w.st, w'.st) && BeforePublication(w.st.active.value.phase))
        || exists f, r :: Recover(h, w.st, w'.st, f, r))
  }

  /** `execute_failed_change` reads the failed node's last grant and computes when it is safe to publish. */
  ghost predicate StartFailureWait(w: World, w': World, lease: nat) {
    && w.vol.exec.Busy? && w.st.active.Some?
    && var c := w.st.active.value;
       && c.failed.Some? && BeforePublication(c.phase) && c.phase != Aborted
       && var last := if c.failed.value in w.vol.grants then w.vol.grants[c.failed.value].expiresAt else w.vol.startupAt;
          w' == w.(vol := w.vol.(exec := FailureWait(c.failed.value, IdentityOf(c), Max(last, w.vol.startupAt + lease))))
  }

  /** After the wait, under the state lock: coverage, leases and fence are checked, then the removal is
      published. */
  ghost predicate PublishFailure(h: VnodeHash, w: World, w': World) {
    && w.vol.exec.FailureWait? && w.vol.now >= w.vol.exec.safeAt && w.st.active.Some?
    && HasPlacement(w.st.committed) && HasPlacement(w.st.active.value.target)
    && Covered(w.st, w.st.active.value.target)
    && (forall t: Token ::
          HasLease(w.st, w.vol.grants, Owner(w.st.active.value.target.assignments, t), w.vol.now))
    && w.vol.exec.node in w.st.fenced
    && PublishFailed(w.st, w'.st, w.vol.exec.identity) && Validate(h, w'.st)
    && w' == World(w'.st, w.vol.(exec := FailureDone(w.vol.exec.node, false)))
  }

  /** A published failure transition picked up again after a restart. */
  ghost predicate ResumeFailure(w: World, w': World) {
    && w.vol.exec.Busy? && w.st.active.Some? && w.st.active.value.failed.Some?
    && (w.st.active.value.phase == Published || w.st.active.value.phase == CleaningUp)
    && w' == w.(vol := w.vol.(exec := FailureDone(w.st.active.value.failed.value, false)))
  }

  ghost predicate CompleteFailure(h: VnodeHash, w: World, w': World) {
    && w.vol.exec.FailureDone? && !w.vol.exec.completed
    && SetPhase(w.st, w'.st, Completed) && Validate(h, w'.st)
    && w' == World(w'.st, w.vol.(exec := FailureDone(w.vol.exec.node, true)))
  }

  /** Only after completion does the coordinator forget the failed node's grant. */
  ghost predicate ForgetGrant(w: World, w': World) {
    && w.vol.exec.FailureDone? && w.vol.exec.completed
    && w' == w.(vol := w.vol.(grants := w.vol.grants - {w.vol.exec.node}, exec := Free))
  }

  /** `finish_recovered_change` waits for every grant it knows of, and for a full lease since startup. */
  ghost predicate StartRecoveryWait(w: World, w': World, lease: nat, safeAt: Instant) {
    && w.vol.exec.Busy? && w.st.active.Some? && w.st.active.value.supersedes.Some?
    && w.st.active.value.failed == None && !BeforePublication(w.st.active.value.phase)
    && safeAt >= w.vol.startupAt + lease && (forall n :: n in w.vol.grants ==> w.vol.grants[n].expiresAt <= safeAt)
    && w' == w.(vol := w.vol.(exec := RecoveryWait(safeAt)))
  }

  ghost predicate EndRecoveryWait(w: World, w': World) {
    && w.vol.exec.RecoveryWait? && w.vol.now >= w.vol.exec.safeAt
    && w' == w.(vol := w.vol.(exec := RecoveryQuiet))
  }

  ghost predicate FinishRecovery(h: VnodeHash, w: World, w': World) {
    && w.vol.exec.RecoveryQuiet? && Validate(h, w'.st)
    && ((SetActivationReady(w.st, w'.st) && w' == w.(st := w'.st))
        || (SetPhase(w.st, w'.st, Completed) && w' == World(w'.st, w.vol.(exec := Free))))
  }

  ghost predicate Next(h: VnodeHash, lease: nat, w: World, w': World) {
    || Tick(w, w') || (exists n, i :: Renew(w, w', lease, n, i)) || Restart(w, w')
    || Unlocked(h, w, w') || Acquire(w, w') || Release(w, w') || Locked(h, w, w')
    || StartFailureWait(w, w', lease) || PublishFailure(h, w, w') || ResumeFailure(w, w')
    || CompleteFailure(h, w, w') || ForgetGrant(w, w')
    || (exists t :: StartRecoveryWait(w, w', lease, t)) || EndRecoveryWait(w, w') || FinishRecovery(h, w, w')
  }

  // ----- Invariant, over views -----

  predicate Expired(vol: Volatile, node: NodeId) {
    forall r :: r in vol.granted && r.node == node ==> r.expiresAt <= vol.now
  }

  /** Every grant ever made is bounded by what the coordinator still knows. */
  predicate GrantsKnown(vol: Volatile, lease: nat) {
    && vol.startupAt <= vol.now
    && forall r :: r in vol.granted ==>
         && r.expiresAt <= vol.now + lease
         && (|| r.expiresAt <= vol.startupAt + lease
             || (r.node in vol.grants && r.expiresAt <= vol.grants[r.node].expiresAt)
             || r.expiresAt <= vol.now)
  }

  /** A failure transition keeps its node fenced and a member until it publishes; afterwards the node is no
      member and all its grants have expired. */
  predicate FailureSound(v: View, vol: Volatile) {
    (v.active.Some? && v.active.value.failed.Some?) ==>
      var c, f := v.active.value, v.active.value.failed.value;
      if BeforePublication(c.phase) then f in v.fenced && f in v.members && f !in c.targetIds
      else f !in v.members && Expired(vol, f)
  }

  predicate ExecSound(v: View, vol: Volatile) {
    match vol.exec
    case Free => true
    case Busy => true
    case FailureWait(f, identity, safeAt) =>
      && v.active.Some? && v.active.value.identity == identity && v.active.value.failed == Some(f)
      && BeforePublication(v.active.value.phase) && !IsTerminal(v.active.value.phase)
      && forall r :: r in vol.granted && r.node == f ==> r.expiresAt <= safeAt || r.expiresAt <= vol.now
    case FailureDone(f, completed) => f !in v.members && Expired(vol, f)
    case RecoveryWait(safeAt) =>
      AwaitingActivation(v) ==> forall r :: r in vol.granted ==> r.expiresAt <= safeAt || r.expiresAt <= vol.now
    case RecoveryQuiet => AwaitingActivation(v) ==> forall r :: r in vol.granted ==> r.expiresAt <= vol.now
  }

  predicate Inv(v: View, vol: Volatile, lease: nat) {
    GrantsKnown(vol, lease) && FailureSound(v, vol) && ExecSound(v, vol)
  }

  // ----- Durable steps, seen through views -----

  /** A new change replaces an ended one, and the failed node of a failure transition is a fenced member. */
  predicate ViewPlanned(v: View, v': View) {
    && ViewIdle(v) && v'.members == v.members && v.fenced <= v'.fenced
    && v'.active.Some? && BeforePublication(v'.active.value.phase)
    && (v'.active.value.failed.Some? ==>
          var f := v'.active.value.failed.value; f in v'.fenced && f in v'.members && f !in v'.active.value.targetIds)
  }

  /** Fences of members stay. */
  predicate ViewRegistered(v: View, v': View) {
    && v' == v.(fenced := v'.fenced)
    && forall n :: n in v.fenced && n in v.members ==> n in v'.fenced
  }

  /** A step of a change without a failed node that ends with one. */
  predicate ViewNoFailure(v: View, v': View) {
    v.active.Some? && v.active.value.failed == None && v'.active.Some? && v'.active.value.failed == None
  }

  lemma {:induction false} SortMembersIds(s: seq<Member>)
    ensures Ids(SortMembers(s)) == Ids(s)
  {
    if s != [] {
      var init, last := s[..|s| - 1], s[|s| - 1];
      SortMembersIds(init);
      InsertMemberIds(SortMembers(init), last);
      IdsSnoc(init, last);
      assert s == init + [last];
    }
  }

  lemma IdsSnoc(s: seq<Member>, m: Member)
    ensures Ids(s + [m]) == Ids(s) + {m.id}
  {
    assert forall x :: x in s + [m] <==> x in s || x == m;
  }

  lemma {:induction false} InsertMemberIds(s: seq<Member>, m: Member)
    ensures Ids(InsertMember(s, m)) == Ids(s) + {m.id}
  {
    if s != [] && s[|s| - 1].id > m.id {
      var init, last := s[..|s| - 1], s[|s| - 1];
      InsertMemberIds(init, m);
      assert s == init + [last];
      IdsSnoc(init, last);
      IdsSnoc(InsertMember(init, m), last);
    } else {
      IdsSnoc(s, m);
    }
  }

  lemma {:induction false} RemainingLacks(members: seq<Member>, gone: NodeId)
    ensures gone !in Ids(Remaining(members, {gone}))
  {
    if members != [] {
      RemainingLacks(members[..|members| - 1], gone);
    }
  }

  lemma FencedView(h: VnodeHash, st: ClusterState, st': ClusterState, f: NodeId, c: Change)
    requires FenceFailed(h, st, st', f, c)
    ensures ViewPlanned(ViewOf(st), ViewOf(st'))
  {
    var rest := Remaining(st.committed.members, {f});
    SortMembersIds(rest);
    RemainingLacks(st.committed.members, f);
    PlanFacts(h, st.committed, rest, st.committed.config, c);
  }

  lemma BegunView(h: VnodeHash, st: ClusterState, st': ClusterState, m: seq<Member>, g: Config, c: Change)
    requires Begin(h, st, st', m, g, c)
    ensures ViewPlanned(ViewOf(st), ViewOf(st'))
  {
    PlanFacts(h, st.committed, m, g, c);
    assert st'.active.value.failed == None && st'.active.value.phase == Planned;
  }

  lemma PlanningView(h: VnodeHash, st: ClusterState, st': ClusterState)
    requires Planning(h, st, st')
    ensures ViewPlanned(ViewOf(st), ViewOf(st'))
  {
    if f, c :| FenceFailed(h, st, st', f, c) {
      FencedView(h, st, st', f, c);
    } else {
      var m, g, c :| Begin(h, st, st', m, g, c);
      BegunView(h, st, st', m, g, c);
    }
  }

  lemma RegisterView(st: ClusterState, st': ClusterState, n: NodeId, i: Instance)
    requires Register(st, st', n, i)
    ensures ViewRegistered(ViewOf(st), ViewOf(st'))
  {
  }

  lemma RecoverView(h: VnodeHash, st: ClusterState, st': ClusterState, f: NodeId, r: Change)
    requires Recover(h, st, st', f, r)
    ensures st'.active.Some? && st'.active.value.failed == None
  {
    PlanFacts(h, st.committed, st.active.value.base.value.members, st.committed.config, r);
  }

  lemma LockedView(h: VnodeHash, st: ClusterState, st': ClusterState)
    requires st.active.Some? && st.active.value.failed == None
    requires Progress(st, st') || Publication(h, st, st')
    ensures ViewNoFailure(ViewOf(st), ViewOf(st'))
  {
    if Progress(st, st') {
      ProgressShape(st, st');
    } else if f, r :| Recover(h, st, st', f, r) {
      RecoverView(h, st, st', f, r);
    } else {
      PublicationShape(h, st, st');
    }
  }

  lemma FailurePublishedView(st: ClusterState, st': ClusterState, e: Identity)
    requires PublishFailed(st, st', e)
    ensures var v, v' := ViewOf(st), ViewOf(st');
      && v.active.Some? && v'.members == v.active.value.targetIds
      && v'.active == Some(v.active.value.(phase := Published, ready := true))
  {
  }

  // ----- Preservation, over views -----

  lemma PlannedKeepsInv(v: View, v': View, vol: Volatile, lease: nat)
    requires Inv(v, vol, lease) && (ViewPlanned(v, v') || ViewRegistered(v, v'))
    ensures Inv(v', vol, lease)
  {
  }

  lemma LockedKeepsInv(v: View, v': View, vol: Volatile, lease: nat)
    requires Inv(v, vol, lease) && vol.exec.Busy? && ViewNoFailure(v, v')
    ensures Inv(v', vol, lease)
  {
  }

  lemma RenewKeepsInv(w: World, w': World, lease: nat, node: NodeId, instance: Instance)
    requires Inv(ViewOf(w.st), w.vol, lease) && Renew(w, w', lease, node, instance)
    ensures Inv(ViewOf(w'.st), w'.vol, lease)
  {
    assert !AwaitingActivation(ViewOf(w.st));
  }

  lemma ClockKeepsInv(v: View, vol: Volatile, vol': Volatile, lease: nat)
    requires Inv(v, vol, lease)
    requires || (vol'.now >= vol.now && vol' == vol.(now := vol'.now))
             || vol' == vol.(grants := map[], startupAt := vol.now, exec := Free)
             || vol' == vol.(exec := Free) || (vol.exec.Free? && vol' == vol.(exec := Busy))
    ensures Inv(v, vol', lease)
  {
  }

  lemma FailureWaitKeepsInv(w: World, w': World, lease: nat)
    requires Inv(ViewOf(w.st), w.vol, lease) && StartFailureWait(w, w', lease)
    ensures Inv(ViewOf(w'.st), w'.vol, lease)
  {
  }

  lemma FailurePublishedKeepsInv(v: View, v': View, vol: Volatile, lease: nat)
    requires Inv(v, vol, lease) && vol.exec.FailureWait? && vol.now >= vol.exec.safeAt
    requires v.active.Some? && v'.members == v.active.value.targetIds
    requires v'.active == Some(v.active.value.(phase := Published, ready := true))
    ensures Inv(v', vol.(exec := FailureDone(vol.exec.node, false)), lease)
    ensures Expired(vol, vol.exec.node)
  {
  }

  lemma FailureDoneKeepsInv(w: World, w': World, lease: nat)
    requires Inv(ViewOf(w.st), w.vol, lease)
    requires ResumeFailure(w, w') || ForgetGrant(w, w')
    ensures Inv(ViewOf(w'.st), w'.vol, lease)
  {
  }

  lemma CompleteKeepsInv(h: VnodeHash, w: World, w': World, lease: nat)
    requires Inv(ViewOf(w.st), w.vol, lease) && Anchored(w.st) && EpochsConsecutive(w.st) && CompleteFailure(h, w, w')
    ensures Inv(ViewOf(w'.st), w'.vol, lease)
  {
    assert Anchored(w'.st);
    assert !BeforePublication(w.st.active.value.phase);
  }

  lemma RecoveryKeepsInv(w: World, w': World, lease: nat)
    requires Inv(ViewOf(w.st), w.vol, lease)
    requires (exists t :: StartRecoveryWait(w, w', lease, t)) || EndRecoveryWait(w, w')
    ensures Inv(ViewOf(w'.st), w'.vol, lease)
  {
  }

  lemma FinishRecoveryKeepsInv(h: VnodeHash, w: World, w': World, lease: nat)
    requires Inv(ViewOf(w.st), w.vol, lease) && Anchored(w.st) && EpochsConsecutive(w.st) && FinishRecovery(h, w, w')
    ensures Inv(ViewOf(w'.st), w'.vol, lease)
  {
    assert Anchored(w'.st);
  }

  // ----- Runs -----

  /** One step of a run, with the coordinator's own guard and change ids. */
  ghost predicate RunStep(h: VnodeHash, lease: nat, w: World, w': World) {
    Next(h, lease, w, w') && FreshIds(w.st, w'.st)
  }

  ghost predicate WorldInv(w: World, lease: nat) {
    Inv(ViewOf(w.st), w.vol, lease) && Anchored(w.st) && EpochsConsecutive(w.st)
  }

  /** A fresh cluster: nothing granted, nothing active. */
  ghost predicate Start(h: VnodeHash, w: World) {
    && Validate(h, w.st) && w.st.active == None
    && w.vol.grants == map[] && w.vol.granted == {} && w.vol.startupAt <= w.vol.now && w.vol.exec == Free
  }

  ghost predicate Steps(h: VnodeHash, lease: nat, run: seq<World>) {
    forall i :: 0 <= i < |run| - 1 ==> StepAt(h, lease, run, i)
  }

  ghost predicate IsRun(h: VnodeHash, lease: nat, run: seq<World>) {
    |run| > 0 && Start(h, run[0]) && Steps(h, lease, run)
  }

  ghost predicate StepAt(h: VnodeHash, lease: nat, run: seq<World>, i: nat)
    requires i + 1 < |run|
  {
    RunStep(h, lease, run[i], run[i + 1])
  }

  /** Durable steps of the lease world are steps of the durable state machine. */
  lemma DurableStaysLawful(h: VnodeHash, st: ClusterState, st': ClusterState)
    requires Anchored(st) && EpochsConsecutive(st) && FreshIds(st, st')
    requires st' == st || Step(h, st, st')
    ensures Anchored(st') && EpochsConsecutive(st')
  {
    if st' != st {
      StepKeepsRules(h, st, st');
    }
  }

  lemma LockedIsStep(h: VnodeHash, w: World, w': World)
    requires Locked(h, w, w')
    ensures Progress(w.st, w'.st) || Publication(h, w.st, w'.st)
  {
    if p :| SetPhase(w.st, w'.st, p) {
      assert Progress(w.st, w'.st);
    }
  }

  lemma NextIsDurableStep(h: VnodeHash, lease: nat, w: World, w': World)
    requires Next(h, lease, w, w')
    ensures w'.st == w.st || Step(h, w.st, w'.st)
  {
    if Unlocked(h, w, w') {
      if n, i :| Register(w.st, w'.st, n, i) {
        assert Progress(w.st, w'.st);
      }
    } else if Locked(h, w, w') {
      LockedIsStep(h, w, w');
    } else if PublishFailure(h, w, w') {
      assert PublishFailed(w.st, w'.st, w.vol.exec.identity);
      assert Publication(h, w.st, w'.st);
    } else if CompleteFailure(h, w, w') {
      assert SetPhase(w.st, w'.st, Completed);
    } else if FinishRecovery(h, w, w') {
      if SetPhase(w.st, w'.st, Completed) {
        assert Progress(w.st, w'.st);
      }
    }
  }

  lemma UnlockedView(h: VnodeHash, w: World, w': World)
    requires Unlocked(h, w, w')
    ensures var v, v' := ViewOf(w.st), ViewOf(w'.st); ViewPlanned(v, v') || ViewRegistered(v, v')
  {
    if Planning(h, w.st, w'.st) {
      PlanningView(h, w.st, w'.st);
    } else if n, i :| Register(w.st, w'.st, n, i) {
      RegisterView(w.st, w'.st, n, i);
    } else {
      BookkeepingView(w.st, w'.st);
    }
  }

  lemma BookkeepingView(st: ClusterState, st': ClusterState)
    requires Bookkeeping(st, st')
    ensures ViewOf(st') == ViewOf(st)
  {
  }

  lemma VolatileKeepsInv(lease: nat, w: World, w': World)
    requires Inv(ViewOf(w.st), w.vol, lease)
    requires Tick(w, w') || (exists n, i :: Renew(w, w', lease, n, i)) || Restart(w, w') || Acquire(w, w') || Release(w, w')
    ensures Inv(ViewOf(w'.st), w'.vol, lease)
  {
    if n, i :| Renew(w, w', lease, n, i) {
      RenewKeepsInv(w, w', lease, n, i);
    } else {
      ClockKeepsInv(ViewOf(w.st), w.vol, w'.vol, lease);
    }
  }

  lemma NextKeepsInv(h: VnodeHash, lease: nat, w: World, w': World)
    requires WorldInv(w, lease) && Next(h, lease, w, w')
    ensures Inv(ViewOf(w'.st), w'.vol, lease)
  {
    if Tick(w, w') || (exists n, i :: Renew(w, w', lease, n, i)) || Restart(w, w') || Acquire(w, w') || Release(w, w') {
      VolatileKeepsInv(lease, w, w');
    } else if Unlocked(h, w, w') {
      UnlockedView(h, w, w');
      PlannedKeepsInv(ViewOf(w.st), ViewOf(w'.st), w.vol, lease);
    } else if Locked(h, w, w') {
      LockedIsStep(h, w, w');
      LockedView(h, w.st, w'.st);
      LockedKeepsInv(ViewOf(w.st), ViewOf(w'.st), w.vol, lease);
    } else if StartFailureWait(w, w', lease) {
      FailureWaitKeepsInv(w, w', lease);
    } else if PublishFailure(h, w, w') {
      FailurePublishedView(w.st, w'.st, w.vol.exec.identity);
      FailurePublishedKeepsInv(ViewOf(w.st), ViewOf(w'.st), w.vol, lease);
    } else if ResumeFailure(w, w') || ForgetGrant(w, w') {
      FailureDoneKeepsInv(w, w', lease);
    } else if CompleteFailure(h, w, w') {
      CompleteKeepsInv(h, w, w', lease);
    } else if FinishRecovery(h, w, w') {
      FinishRecoveryKeepsInv(h, w, w', lease);
    } else {
      RecoveryKeepsInv(w, w', lease);
    }
  }

  lemma RunStepKeepsInv(h: VnodeHash, lease: nat, w: World, w': World)
    requires WorldInv(w, lease) && RunStep(h, lease, w, w')
    ensures WorldInv(w', lease)
  {
    NextKeepsInv(h, lease, w, w');
    NextIsDurableStep(h, lease, w, w');
    DurableStaysLawful(h, w.st, w'.st);
  }

  lemma StepAtKeepsInv(h: VnodeHash, lease: nat, run: seq<World>, i: nat)
    requires i + 1 < |run| && StepAt(h, lease, run, i) && WorldInv(run[i], lease)
    ensures WorldInv(run[i + 1], lease)
  {
    RunStepKeepsInv(h, lease, run[i], run[i + 1]);
  }

  lemma {:induction false} StepsKeepInv(h: VnodeHash, lease: nat, run: seq<World>, i: nat)
    requires i < |run| && WorldInv(run[0], lease) && Steps(h, lease, run)
    ensures WorldInv(run[i], lease)
  {
    if i > 0 {
      StepsKeepInv(h, lease, run, i - 1);
      StepAtKeepsInv(h, lease, run, i - 1);
    }
  }

  lemma RunKeepsInv(h: VnodeHash, lease: nat, run: seq<World>, i: nat)
    requires IsRun(h, lease, run) && i < |run|
    ensures WorldInv(run[i], lease)
  {
    StepsKeepInv(h, lease, run, i);
  }

  /** In every run, restarts included: when a failure transition publishes, no lease ever granted to the failed
      node is unexpired, and the new owner of every token holds a current lease. */
  lemma FailurePublicationIsSafe(h: VnodeHash, lease: nat, run: seq<World>, i: nat, w': World)
    requires IsRun(h, lease, run) && i < |run| && PublishFailure(h, run[i], w')
    ensures run[i].st.active.Some? && run[i].st.active.value.failed == Some(run[i].vol.exec.node)
    ensures forall r :: r in run[i].vol.granted && r.node == run[i].vol.exec.node ==> r.expiresAt <= run[i].vol.now
    ensures HasPlacement(w'.st.committed)
    ensures forall t: Token ::
      HasLease(run[i].st, run[i].vol.grants, Owner(w'.st.committed.assignments, t), run[i].vol.now)
  {
    RunKeepsInv(h, lease, run, i);
    assert w'.st.committed == run[i].st.active.value.target;
  }

  /** In every run: from the end of a recovery's lease wait until activation is first marked ready, no grant to
      any node is unexpired. */
  lemma RecoveryIsQuiet(h: VnodeHash, lease: nat, run: seq<World>, i: nat, r: GrantRecord)
    requires IsRun(h, lease, run) && i < |run|
    requires run[i].vol.exec.RecoveryQuiet? && AwaitingActivation(ViewOf(run[i].st)) && r in run[i].vol.granted
    ensures r.expiresAt <= run[i].vol.now
  {
    RunKeepsInv(h, lease, run, i);
  }
}
