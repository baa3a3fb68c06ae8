/**
 What a current lease means, in every run of the coordinator: a grant it made to the registered, unfenced process of the
 member, at the committed epoch, that has not run out. And what its absence means: once a lease duration has passed since
 startup, a member without an unexpired grant holds no lease of any incarnation.
 */
module LeaseTerms {
  import opened Ring
  import opened Topology
  import opened Placement
  import opened Ranges
  import opened Cluster
  import opened Removal
  import opened Coordinator
  import opened Leases
  import opened Failure
  import opened Runs

  /** The grants in hand are among those ever made, and of no later epoch than the committed one. */
  ghost predicate Recorded(w: World) {
    forall n :: n in w.vol.grants ==> GrantRecorded(w.vol, n, w.st.committed.epoch)
  }

  ghost predicate GrantRecorded(vol: Volatile, n: NodeId, epoch: nat)
    requires n in vol.grants
  {
    var g := vol.grants[n];
    GrantRecord(n, g.instance, g.epoch, g.expiresAt) in vol.granted && g.epoch <= epoch
  }

  lemma EpochRises(h: VnodeHash, lease: nat, w: World, w': World)
    requires WorldInv(w, lease) && RunStep(h, lease, w, w')
    ensures w.st.committed.epoch <= w'.st.committed.epoch
    ensures w'.st.committed != w.st.committed ==> w.st.committed.epoch < w'.st.committed.epoch
  {
    NextIsDurableStep(h, lease, w, w');
    if w'.st != w.st { StepKeepsRules(h, w.st, w'.st); }
  }

  /** A step makes a grant, forgets grants, or leaves them alone. */
  lemma GrantsStep(h: VnodeHash, lease: nat, w: World, w': World)
    requires Next(h, lease, w, w')
    ensures w.vol.granted <= w'.vol.granted
    ensures || (forall n :: n in w'.vol.grants ==> n in w.vol.grants && w'.vol.grants[n] == w.vol.grants[n])
            || exists n, i :: Renew(w, w', lease, n, i)
  {
  }

  lemma StepKeepsRecorded(h: VnodeHash, lease: nat, w: World, w': World)
    requires WorldInv(w, lease) && RunStep(h, lease, w, w') && Recorded(w)
    ensures Recorded(w')
  {
    EpochRises(h, lease, w, w');
    GrantsStep(h, lease, w, w');
    forall n | n in w'.vol.grants ensures GrantRecorded(w'.vol, n, w'.st.committed.epoch) {
      if n in w.vol.grants && w'.vol.grants[n] == w.vol.grants[n] { assert GrantRecorded(w.vol, n, w.st.committed.epoch); }
    }
  }

  lemma RunKeepsRecorded(h: VnodeHash, lease: nat, run: seq<World>, i: nat)
    requires IsRun(h, lease, run) && i < |run|
    ensures Recorded(run[i])
  {
    var inv := w => Recorded(w);
    forall j | 0 <= j && j + 1 < |run| && inv(run[j]) ensures Keeps(run, inv, j) {
      RunKeepsInv(h, lease, run, j);
      assert StepAt(h, lease, run, j);
      StepKeepsRecorded(h, lease, run[j], run[j + 1]);
    }
    Throughout(run, inv, 0, i);
  }

  /** A grant of this kind was made and has not run out. */
  ghost predicate Granted(w: World, n: NodeId) {
    && n in w.st.instances && n !in w.st.fenced
    && exists r :: && r in w.vol.granted && r.node == n && r.instance == w.st.instances[n]
                   && r.epoch == w.st.committed.epoch && r.expiresAt > w.vol.now
  }

  lemma LeasedIsGranted(w: World, n: NodeId)
    requires Recorded(w) && HasLease(w.st, w.vol.grants, n, w.vol.now)
    ensures Granted(w, n)
  {
    assert GrantRecorded(w.vol, n, w.st.committed.epoch);
  }

  /** In every run, when a failure removal publishes, the new owner of every token is registered and unfenced, and its
      process was granted a lease at the committed epoch that has not run out. */
  lemma NewOwnersHoldGrants(h: VnodeHash, lease: nat, run: seq<World>, i: nat, w': World, t: Token)
    requires IsRun(h, lease, run) && i < |run| && PublishFailure(h, run[i], w')
    ensures HasPlacement(w'.st.committed) && Granted(run[i], Owner(w'.st.committed.assignments, t))
  {
    FailurePublicationIsSafe(h, lease, run, i, w');
    RunKeepsRecorded(h, lease, run, i);
    LeasedIsGranted(run[i], Owner(w'.st.committed.assignments, t));
  }

  /** In every run, a member whose every grant has run out is confirmed to have failed, whatever its peers report. */
  lemma ExpiredIsConfirmed(h: VnodeHash, lease: nat, run: seq<World>, i: nat, n: NodeId, reports: Reports)
    requires IsRun(h, lease, run) && i < |run| && Expired(run[i].vol, n)
    ensures FailureConfirmed(run[i].st, run[i].vol.grants, reports, n, run[i].vol.now)
  {
    RunKeepsRecorded(h, lease, run, i);
    if HasLease(run[i].st, run[i].vol.grants, n, run[i].vol.now) { LeasedIsGranted(run[i], n); }
  }

  /** In every run, once a lease duration has passed since startup, a node without an unexpired grant in hand has no
      unexpired lease at all, of this incarnation of the coordinator or of any before it. */
  lemma UngrantedIsExpired(h: VnodeHash, lease: nat, run: seq<World>, i: nat, n: NodeId)
    requires IsRun(h, lease, run) && i < |run| && PastStartup(run[i].vol.startupAt, lease, run[i].vol.now)
    requires n in run[i].vol.grants ==> run[i].vol.grants[n].expiresAt <= run[i].vol.now
    ensures Expired(run[i].vol, n)
  {
    RunKeepsInv(h, lease, run, i);
  }

  /** A publication ends every lease: nobody holds one at the new epoch until it renews. */
  lemma PublicationEndsLeases(h: VnodeHash, lease: nat, run: seq<World>, i: nat, n: NodeId)
    requires IsRun(h, lease, run) && i + 1 < |run| && run[i + 1].st.committed != run[i].st.committed
    ensures !HasLease(run[i + 1].st, run[i + 1].vol.grants, n, run[i + 1].vol.now)
  {
    var w, w' := run[i], run[i + 1];
    RunKeepsInv(h, lease, run, i);
    RunKeepsRecorded(h, lease, run, i);
    assert StepAt(h, lease, run, i);
    EpochRises(h, lease, w, w');
    GrantsStep(h, lease, w, w');
    if n in w'.vol.grants { assert GrantRecorded(w.vol, n, w.st.committed.epoch); }
  }

  /** The write that plans a failed member's removal ends its lease, whatever it was granted. */
  lemma FencingEndsLease(h: VnodeHash, st: ClusterState, st': ClusterState, f: NodeId, c: Change,
                         grants: map<NodeId, Grant>, now: Instant)
    requires FenceFailed(h, st, st', f, c)
    ensures !HasLease(st', grants, f, now)
  {
  }

  // ----- Activation -----

  /** While a published change is not activated nobody is granted a lease; once it is, every registered, unfenced member may
      renew again. */
  lemma ActivationOpensRenewal(st: ClusterState, n: NodeId)
    requires st.active.Some? && st.active.value.phase == Published
    requires n != EMPTY_ID && n in Ids(st.committed.members) && n in st.instances && st.instances[n] != 0 && n !in st.fenced
    ensures MayRenew(WithActivation(st), n, st.instances[n], st.committed.epoch)
    ensures !st.active.value.activationReady ==> !MayRenew(st, n, st.instances[n], st.committed.epoch)
  {
  }

  /** The step first marks the active change ready. */
  predicate Activates(st: ClusterState, st': ClusterState) {
    && st.active.Some? && st.active.value.phase == Published && !st.active.value.activationReady
    && st'.active.Some? && st'.active.value.id == st.active.value.id && st'.active.value.activationReady
  }

  lemma LockedDoesNotActivate(h: VnodeHash, w: World, w': World)
    requires Locked(h, w, w') && w.st.active.value.supersedes.Some? && w.st.active.value.phase == Published
    requires !w.st.active.value.activationReady
    ensures w'.st.active.Some? && !w'.st.active.value.activationReady
  {
    if p :| SetPhase(w.st, w'.st, p) {
    } else if ResetAttempt(w.st, w'.st) {
    } else {
      var f, r :| Recover(h, w.st, w'.st, f, r);
      PlanFacts(h, w.st.committed, w.st.active.value.base.value.members, w.st.committed.config, r);
    }
  }

  lemma PlanningNeedsIdle(h: VnodeHash, st: ClusterState, st': ClusterState)
    requires Planning(h, st, st')
    ensures Idle(st)
  {
  }

  lemma UnlockedDoesNotActivate(h: VnodeHash, w: World, w': World)
    requires Unlocked(h, w, w') && w.st.active.Some? && w.st.active.value.phase == Published
    ensures w'.st.active.Some? && w'.st.active.value.activationReady == w.st.active.value.activationReady
  {
    if Planning(h, w.st, w'.st) { PlanningNeedsIdle(h, w.st, w'.st); }
  }

  /** Only the end of a recovery's own procedure activates a superseding change. */
  lemma ActivatedByItsProcedure(h: VnodeHash, lease: nat, w: World, w': World)
    requires WorldInv(w, lease) && Next(h, lease, w, w') && Activates(w.st, w'.st) && w.st.active.value.supersedes.Some?
    ensures w.vol.exec.RecoveryQuiet?
  {
    if Unlocked(h, w, w') {
      UnlockedDoesNotActivate(h, w, w');
    } else if Locked(h, w, w') {
      LockedDoesNotActivate(h, w, w');
    } else if PublishFailure(h, w, w') {
      PublishesBeforehand(h, lease, w, w');
    }
  }

  lemma PublishesBeforehand(h: VnodeHash, lease: nat, w: World, w': World)
    requires WorldInv(w, lease) && PublishFailure(h, w, w')
    ensures w.st.active.Some? && BeforePublication(w.st.active.value.phase)
  {
    assert ExecSound(ViewOf(w.st), w.vol);
  }

  /** In every run, at the step that first activates a change that supersedes a failed join, no lease granted to anybody is
      unexpired: nobody can still be acting on the join. */
  lemma RecoveryActivatesQuietly(h: VnodeHash, lease: nat, run: seq<World>, i: nat, r: GrantRecord)
    requires IsRun(h, lease, run) && i + 1 < |run| && Activates(run[i].st, run[i + 1].st)
    requires run[i].st.active.value.supersedes.Some? && r in run[i].vol.granted
    ensures r.expiresAt <= run[i].vol.now
  {
    RunKeepsInv(h, lease, run, i);
    assert StepAt(h, lease, run, i);
    ActivatedByItsProcedure(h, lease, run[i], run[i + 1]);
    RecoveryIsQuiet(h, lease, run, i, r);
  }
}
