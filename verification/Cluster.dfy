/**
 The coordinator's durable state, and reconciliation of its replica metadata with the committed
 placement.
 */
module Cluster {
  import opened Ring
  import opened Topology
  import opened MigrationPlan

  /** A process instance id or digest; 0 is the empty string. */
  type Instance = nat

  type Digest = nat

  type ChangeId = nat

  datatype Admission = Admission(epoch: nat, start: Token, end: Token, owner: NodeId, node: NodeId,
                                 instance: Instance, watermark: nat, cursor: nat, digest: Digest)

  datatype RepairPhase = Pending | Copying | Verifying | Complete

  datatype Repair = Repair(epoch: nat, start: Token, end: Token, owner: NodeId, node: NodeId,
                           phase: RepairPhase, retryCount: nat, nextAttempt: nat, lastError: string)

  /** What identifies a replica task: a derived range and one of its followers. */
  datatype TaskKey = TaskKey(start: Token, end: Token, owner: NodeId, node: NodeId)

  function KeyOf(a: Admission): TaskKey {
    TaskKey(a.start, a.end, a.owner, a.node)
  }

  function RepairKey(r: Repair): TaskKey {
    TaskKey(r.start, r.end, r.owner, r.node)
  }

  datatype Phase =
    | Planned | Resetting | CopyingSnapshot | ReplayingChangelog | PausingWrites | VerifyingRanges
    | ReadyToPublish | Published | CleaningUp | Completed | Aborting | Aborted

  predicate IsTerminal(p: Phase) {
    p == Completed || p == Aborted
  }

  predicate BeforePublication(p: Phase) {
    p != Published && p != CleaningUp && p != Completed
  }

  /** A moving range and its progress. The range id is a digest of the move's own fields. */
  datatype RangeProgress = RangeProgress(move: RangeMove, sourceInstance: Instance, destinationInstance: Instance,
                                         sourceCleaned: bool, records: nat, watermark: nat, verified: bool)

  datatype Change = Change(id: ChangeId, baseEpoch: nat, base: Option<Snapshot>, supersedes: Option<ChangeId>,
                           target: Snapshot, phase: Phase, ranges: seq<RangeProgress>, obligations: seq<Obligation>,
                           stopped: seq<NodeId>, stopping: seq<NodeId>, stopPrepared: seq<NodeId>,
                           failed: Option<NodeId>, activationReady: bool, directMerge: bool)

  datatype Tasks = Tasks(admissions: seq<Admission>, repairs: seq<Repair>)

  datatype ClusterState = ClusterState(committed: Snapshot, active: Option<Change>, superseded: Option<Change>,
                                       instances: map<NodeId, Instance>,
                                       stopConfirmations: map<NodeId, set<Instance>>,
                                       tasks: Tasks, fenced: set<NodeId>, blockReason: string)

  /** Published but not yet activated. */
  predicate Unactivated(phase: Phase, ready: bool) {
    phase == Published && !ready
  }

  predicate ActivationPending(st: ClusterState) {
    st.active.Some? && Unactivated(st.active.value.phase, st.active.value.activationReady)
  }

  // ----- The desired tasks of a topology -----

  function KeysOf(r: DerivedRange): (keys: seq<TaskKey>)
    ensures |keys| == |r.followers|
    ensures forall j :: 0 <= j < |keys| ==> keys[j] == TaskKey(r.start, r.end, r.owner, r.followers[j])
  {
    seq(|r.followers|, j requires 0 <= j < |r.followers| => TaskKey(r.start, r.end, r.owner, r.followers[j]))
  }

  function DesiredKeys(ranges: seq<DerivedRange>): seq<TaskKey> {
    if ranges == [] then [] else DesiredKeys(ranges[..|ranges| - 1]) + KeysOf(ranges[|ranges| - 1])
  }

  lemma {:induction false} DesiredElements(ranges: seq<DerivedRange>, k: TaskKey)
    ensures k in DesiredKeys(ranges)
       <==> exists r :: r in ranges && k.start == r.start && k.end == r.end && k.owner == r.owner && k.node in r.followers
  {
    if ranges != [] {
      var init, last := ranges[..|ranges| - 1], ranges[|ranges| - 1];
      DesiredElements(init, k);
      assert ranges == init + [last];
      if k.start == last.start && k.end == last.end && k.owner == last.owner && k.node in last.followers {
        var j :| 0 <= j < |last.followers| && last.followers[j] == k.node;
        assert KeysOf(last)[j] == k;
      }
    }
  }

  // ----- Reconciliation -----

  predicate AdmissionCurrent(a: Admission, epoch: nat, desired: seq<TaskKey>, instances: map<NodeId, Instance>) {
    && a.epoch == epoch
    && a.node in instances && instances[a.node] == a.instance
    && KeyOf(a) in desired
  }

  function CurrentAdmissions(s: seq<Admission>, epoch: nat, desired: seq<TaskKey>, instances: map<NodeId, Instance>)
    : (r: seq<Admission>)
  {
    if s == [] then []
    else
      var rest := CurrentAdmissions(s[..|s| - 1], epoch, desired, instances);
      if AdmissionCurrent(s[|s| - 1], epoch, desired, instances) then rest + [s[|s| - 1]] else rest
  }

  function AdmittedKeys(s: seq<Admission>): set<TaskKey> {
    set a | a in s :: KeyOf(a)
  }

  predicate RepairCurrent(r: Repair, epoch: nat, desired: seq<TaskKey>) {
    r.epoch == epoch && RepairKey(r) in desired
  }

  /** A repair that claims to be complete without an admission has to be done again. */
  function Demoted(r: Repair, admitted: set<TaskKey>): Repair {
    if r.phase == Complete && RepairKey(r) !in admitted then r.(phase := Pending) else r
  }

  function KeptRepairs(s: seq<Repair>, epoch: nat, desired: seq<TaskKey>, admitted: set<TaskKey>): (r: seq<Repair>) {
    if s == [] then []
    else
      var rest := KeptRepairs(s[..|s| - 1], epoch, desired, admitted);
      if RepairCurrent(s[|s| - 1], epoch, desired) then rest + [Demoted(s[|s| - 1], admitted)] else rest
  }

  function NewRepair(epoch: nat, k: TaskKey): Repair {
    Repair(epoch, k.start, k.end, k.owner, k.node, Pending, 0, 0, "")
  }

  function HasRepair(s: seq<Repair>, k: TaskKey): bool {
    exists r :: r in s && RepairKey(r) == k
  }

  /** A pending repair appended for every desired task that has none. */
  function WithMissing(s: seq<Repair>, epoch: nat, desired: seq<TaskKey>): (r: seq<Repair>) {
    if desired == [] then s
    else
      var rest := WithMissing(s, epoch, desired[..|desired| - 1]);
      var k := desired[|desired| - 1];
      if HasRepair(rest, k) then rest else rest + [NewRepair(epoch, k)]
  }

  function Reconciled(t: Tasks, epoch: nat, desired: seq<TaskKey>, instances: map<NodeId, Instance>): Tasks {
    var admissions := CurrentAdmissions(t.admissions, epoch, desired, instances);
    Tasks(admissions,
          WithMissing(KeptRepairs(t.repairs, epoch, desired, AdmittedKeys(admissions)), epoch, desired))
  }

  /** The in-place edits of `reconcile_replica_repairs`: two retains, a demotion pass and an insertion
      pass over the desired tasks. Fails when the placement needs too many tasks. */
  method ReconcileReplicaRepairs(t: Tasks, epoch: nat, ranges: seq<DerivedRange>, instances: map<NodeId, Instance>)
    returns (ok: bool, out: Tasks)
    ensures ok <==> |DesiredKeys(ranges)| <= MAX_REPLICA_OBLIGATIONS
    ensures ok ==> out == Reconciled(t, epoch, DesiredKeys(ranges), instances)
  {
    var desired := DesiredKeys(ranges);
    if |desired| > MAX_REPLICA_OBLIGATIONS { return false, t; }
    var admissions: seq<Admission> := [];
    var admitted: set<TaskKey> := {};
    for i := 0 to |t.admissions|
      invariant admissions == CurrentAdmissions(t.admissions[..i], epoch, desired, instances)
      invariant admitted == AdmittedKeys(admissions)
    {
      assert t.admissions[..i + 1][..i] == t.admissions[..i];
      var a := t.admissions[i];
      if AdmissionCurrent(a, epoch, desired, instances) {
        AdmittedKeysSnoc(admissions, a);
        admissions := admissions + [a];
        admitted := admitted + {KeyOf(a)};
      }
    }
    assert t.admissions[..|t.admissions|] == t.admissions;
    var repairs: seq<Repair> := [];
    for i := 0 to |t.repairs|
      invariant repairs == KeptRepairs(t.repairs[..i], epoch, desired, admitted)
    {
      assert t.repairs[..i + 1][..i] == t.repairs[..i];
      if RepairCurrent(t.repairs[i], epoch, desired) {
        repairs := repairs + [Demoted(t.repairs[i], admitted)];
      }
    }
    assert t.repairs[..|t.repairs|] == t.repairs;
    repairs := AddMissing(repairs, epoch, desired);
    return true, Tasks(admissions, repairs);
  }

  method AddMissing(kept: seq<Repair>, epoch: nat, desired: seq<TaskKey>) returns (repairs: seq<Repair>)
    ensures repairs == WithMissing(kept, epoch, desired)
  {
    repairs := kept;
    var existing := set r | r in kept :: RepairKey(r);
    for i := 0 to |desired|
      invariant repairs == WithMissing(kept, epoch, desired[..i])
      invariant forall k :: k in existing <==> HasRepair(repairs, k)
    {
      assert desired[..i + 1][..i] == desired[..i];
      var k := desired[i];
      if k !in existing {
        HasRepairSnoc(repairs, NewRepair(epoch, k));
        existing := existing + {k};
        repairs := repairs + [NewRepair(epoch, k)];
      }
    }
    assert desired[..|desired|] == desired;
  }

  lemma AdmittedKeysSnoc(s: seq<Admission>, a: Admission)
    ensures AdmittedKeys(s + [a]) == AdmittedKeys(s) + {KeyOf(a)}
  {
    assert forall x :: x in s + [a] <==> x in s || x == a;
  }

  lemma HasRepairSnoc(s: seq<Repair>, r: Repair)
    ensures forall k :: HasRepair(s + [r], k) <==> HasRepair(s, k) || k == RepairKey(r)
  {
    assert forall x :: x in s + [r] <==> x in s || x == r;
  }

  // ----- What reconciliation promises -----

  predicate DistinctAdmissions(s: seq<Admission>) {
    forall i, j :: 0 <= i < j < |s| ==> KeyOf(s[i]) != KeyOf(s[j])
  }

  predicate DistinctRepairs(s: seq<Repair>) {
    forall i, j :: 0 <= i < j < |s| ==> RepairKey(s[i]) != RepairKey(s[j])
  }

  /** What `validate` demands of the replica metadata in every stored state, instance and digest
      emptiness aside: no duplicates, nothing outside the placement or its epoch, and nothing complete
      that is not admitted. */
  predicate TasksValid(t: Tasks, epoch: nat, desired: seq<TaskKey>) {
    && DistinctAdmissions(t.admissions) && DistinctRepairs(t.repairs)
    && (forall a :: a in t.admissions ==> a.epoch == epoch && KeyOf(a) in desired)
    && (forall r :: r in t.repairs ==> RepairCurrent(r, epoch, desired))
    && (forall r :: r in t.repairs && r.phase == Complete ==> RepairKey(r) in AdmittedKeys(t.admissions))
  }

  /** The metadata agrees with the placement: in addition, one repair for every desired task, and
      every admission names the registered process. */
  ghost predicate Settled(t: Tasks, epoch: nat, desired: seq<TaskKey>, instances: map<NodeId, Instance>) {
    && TasksValid(t, epoch, desired)
    && (forall a :: a in t.admissions ==> AdmissionCurrent(a, epoch, desired, instances))
    && (forall k :: k in desired ==> HasRepair(t.repairs, k))
  }

  lemma {:induction false} CurrentAdmissionsElements(s: seq<Admission>, epoch: nat, desired: seq<TaskKey>,
                                                     instances: map<NodeId, Instance>)
    ensures var r := CurrentAdmissions(s, epoch, desired, instances);
      && (forall a :: a in r <==> a in s && AdmissionCurrent(a, epoch, desired, instances))
      && (DistinctAdmissions(s) ==> DistinctAdmissions(r))
  {
    if s != [] {
      var init, last := s[..|s| - 1], s[|s| - 1];
      CurrentAdmissionsElements(init, epoch, desired, instances);
      assert s == init + [last];
      var rest := CurrentAdmissions(init, epoch, desired, instances);
      assert forall i :: 0 <= i < |rest| ==> rest[i] in init;
    }
  }

  lemma {:induction false} KeptRepairsElements(s: seq<Repair>, epoch: nat, desired: seq<TaskKey>, admitted: set<TaskKey>)
    ensures var r := KeptRepairs(s, epoch, desired, admitted);
      && (forall x :: x in r ==> RepairCurrent(x, epoch, desired) && HasRepair(s, RepairKey(x)))
      && (forall x :: x in r && x.phase == Complete ==> RepairKey(x) in admitted)
  {
    if s != [] {
      var init, last := s[..|s| - 1], s[|s| - 1];
      KeptRepairsElements(init, epoch, desired, admitted);
      assert s == init + [last];
      HasRepairSnoc(init, last);
    }
  }

  lemma {:induction false} KeptRepairsDistinct(s: seq<Repair>, epoch: nat, desired: seq<TaskKey>, admitted: set<TaskKey>)
    requires DistinctRepairs(s)
    ensures DistinctRepairs(KeptRepairs(s, epoch, desired, admitted))
  {
    if s != [] {
      var init, last := s[..|s| - 1], s[|s| - 1];
      KeptRepairsDistinct(init, epoch, desired, admitted);
      KeptRepairsElements(init, epoch, desired, admitted);
      var rest := KeptRepairs(init, epoch, desired, admitted);
      forall i | 0 <= i < |rest| ensures RepairKey(rest[i]) != RepairKey(last) {
        assert rest[i] in rest;
        var x :| x in init && RepairKey(x) == RepairKey(rest[i]);
        var j :| 0 <= j < |init| && init[j] == x;
        assert s[j] == x;
      }
    }
  }

  lemma {:induction false} WithMissingElements(s: seq<Repair>, epoch: nat, desired: seq<TaskKey>)
    requires DistinctRepairs(s)
    ensures Completes(s, epoch, desired, WithMissing(s, epoch, desired))
  {
    if desired != [] {
      var init, k := desired[..|desired| - 1], desired[|desired| - 1];
      WithMissingElements(s, epoch, init);
      assert desired == init + [k];
      CompletesOneMore(s, epoch, init, k, WithMissing(s, epoch, init));
    }
  }

  /** The repair is due at once. */
  predicate Untried(r: Repair) {
    r.retryCount == 0 && r.nextAttempt == 0 && r.lastError == ""
  }

  /** The repairs extend s by pending ones that are due at once, so that every desired task has one. */
  ghost predicate Completes(s: seq<Repair>, epoch: nat, desired: seq<TaskKey>, r: seq<Repair>) {
    && DistinctRepairs(r) && s <= r
    && (forall k :: k in desired ==> HasRepair(r, k))
    && (forall x :: x in r ==> x in s || (x.epoch == epoch && RepairKey(x) in desired && x.phase == Pending && Untried(x)))
  }

  lemma CompletesOneMore(s: seq<Repair>, epoch: nat, desired: seq<TaskKey>, k: TaskKey, r: seq<Repair>)
    requires Completes(s, epoch, desired, r)
    ensures Completes(s, epoch, desired + [k], if HasRepair(r, k) then r else r + [NewRepair(epoch, k)])
  {
    if !HasRepair(r, k) {
      HasRepairSnoc(r, NewRepair(epoch, k));
      assert forall i :: 0 <= i < |r| ==> r[i] in r;
    }
  }

  /** From any duplicate-free state, reconciliation settles the replica metadata. */
  lemma ReconcileSettles(t: Tasks, epoch: nat, desired: seq<TaskKey>, instances: map<NodeId, Instance>)
    requires DistinctAdmissions(t.admissions) && DistinctRepairs(t.repairs)
    ensures Settled(Reconciled(t, epoch, desired, instances), epoch, desired, instances)
    ensures forall a :: a in Reconciled(t, epoch, desired, instances).admissions
                   <==> a in t.admissions && AdmissionCurrent(a, epoch, desired, instances)
  {
    CurrentAdmissionsElements(t.admissions, epoch, desired, instances);
    var admitted := AdmittedKeys(CurrentAdmissions(t.admissions, epoch, desired, instances));
    KeptRepairsElements(t.repairs, epoch, desired, admitted);
    KeptRepairsDistinct(t.repairs, epoch, desired, admitted);
    WithMissingElements(KeptRepairs(t.repairs, epoch, desired, admitted), epoch, desired);
  }

  lemma {:induction false} CurrentAdmissionsUnchanged(s: seq<Admission>, epoch: nat, desired: seq<TaskKey>,
                                                      instances: map<NodeId, Instance>)
    requires forall a :: a in s ==> AdmissionCurrent(a, epoch, desired, instances)
    ensures CurrentAdmissions(s, epoch, desired, instances) == s
  {
    if s != [] {
      assert s == s[..|s| - 1] + [s[|s| - 1]];
      CurrentAdmissionsUnchanged(s[..|s| - 1], epoch, desired, instances);
    }
  }

  lemma {:induction false} KeptRepairsUnchanged(s: seq<Repair>, epoch: nat, desired: seq<TaskKey>, admitted: set<TaskKey>)
    requires forall r :: r in s ==> RepairCurrent(r, epoch, desired)
    requires forall r :: r in s && r.phase == Complete ==> RepairKey(r) in admitted
    ensures KeptRepairs(s, epoch, desired, admitted) == s
  {
    if s != [] {
      assert s == s[..|s| - 1] + [s[|s| - 1]];
      KeptRepairsUnchanged(s[..|s| - 1], epoch, desired, admitted);
    }
  }

  lemma {:induction false} WithMissingUnchanged(s: seq<Repair>, epoch: nat, desired: seq<TaskKey>)
    requires forall k :: k in desired ==> HasRepair(s, k)
    ensures WithMissing(s, epoch, desired) == s
  {
    if desired != [] {
      assert desired == desired[..|desired| - 1] + [desired[|desired| - 1]];
      WithMissingUnchanged(s, epoch, desired[..|desired| - 1]);
    }
  }

  /** A settled state is a fixed point. */
  lemma SettledIsFixed(t: Tasks, epoch: nat, desired: seq<TaskKey>, instances: map<NodeId, Instance>)
    requires Settled(t, epoch, desired, instances)
    ensures Reconciled(t, epoch, desired, instances) == t
  {
    CurrentAdmissionsUnchanged(t.admissions, epoch, desired, instances);
    KeptRepairsUnchanged(t.repairs, epoch, desired, AdmittedKeys(t.admissions));
    WithMissingUnchanged(t.repairs, epoch, desired);
  }

  /** Reconciliation is idempotent. */
  lemma ReconcileIsIdempotent(t: Tasks, epoch: nat, desired: seq<TaskKey>, instances: map<NodeId, Instance>)
    requires DistinctAdmissions(t.admissions) && DistinctRepairs(t.repairs)
    ensures var once := Reconciled(t, epoch, desired, instances);
      Reconciled(once, epoch, desired, instances) == once
  {
    ReconcileSettles(t, epoch, desired, instances);
    SettledIsFixed(Reconciled(t, epoch, desired, instances), epoch, desired, instances);
  }

  // ----- Storing a group of admissions -----

  datatype Seed = Seed(task: Repair, admission: Admission)

  /** Seeds carry the admission of their own task. */
  ghost predicate SeedMatches(s: Seed) {
    KeyOf(s.admission) == RepairKey(s.task) && s.admission.epoch == s.task.epoch
  }

  predicate SeedAcceptable(s: Seed, t: Tasks, epoch: nat, instances: map<NodeId, Instance>) {
    && s.task.epoch == epoch
    && s.task.node in instances && instances[s.task.node] == s.admission.instance
    && exists r :: r in t.repairs && r.epoch == epoch && RepairKey(r) == RepairKey(s.task)
  }

  function Finished(r: Repair): Repair {
    r.(phase := Complete, retryCount := 0, nextAttempt := 0, lastError := "")
  }

  /** The first repair under the key, finished in place. */
  function FinishFirst(s: seq<Repair>, epoch: nat, k: TaskKey): (r: seq<Repair>)
    ensures |r| == |s|
  {
    if s == [] then []
    else if s[0].epoch == epoch && RepairKey(s[0]) == k then [Finished(s[0])] + s[1..]
    else [s[0]] + FinishFirst(s[1..], epoch, k)
  }

  function DropAdmissions(s: seq<Admission>, epoch: nat, k: TaskKey): seq<Admission> {
    if s == [] then []
    else
      var rest := DropAdmissions(s[..|s| - 1], epoch, k);
      if s[|s| - 1].epoch == epoch && KeyOf(s[|s| - 1]) == k then rest else rest + [s[|s| - 1]]
  }

  function StoreOne(t: Tasks, s: Seed): Tasks {
    Tasks(DropAdmissions(t.admissions, s.task.epoch, RepairKey(s.task)) + [s.admission],
          FinishFirst(t.repairs, s.task.epoch, RepairKey(s.task)))
  }

  function StoreAll(t: Tasks, seeds: seq<Seed>): Tasks {
    if seeds == [] then t else StoreOne(StoreAll(t, seeds[..|seeds| - 1]), seeds[|seeds| - 1])
  }

  /** The loop of `store_repair_admissions` over a clone of the state: the first unacceptable seed
      abandons the clone, so nothing of the group is stored. */
  method StoreRepairAdmissions(t: Tasks, epoch: nat, instances: map<NodeId, Instance>, seeds: seq<Seed>,
                               ghost desired: seq<TaskKey>)
    returns (ok: bool, out: Tasks)
    requires TasksValid(t, epoch, desired)
    requires forall s :: s in seeds ==> SeedMatches(s)
    ensures ok <==> forall s :: s in seeds ==> SeedAcceptable(s, t, epoch, instances)
    ensures ok ==> out == StoreAll(t, seeds) && TasksValid(out, epoch, desired)
    ensures Settled(t, epoch, desired, instances) ==> Settled(out, epoch, desired, instances)
    ensures !ok ==> out == t
  {
    out := t;
    for i := 0 to |seeds|
      invariant out == StoreAll(t, seeds[..i]) && TasksValid(out, epoch, desired)
      invariant Settled(t, epoch, desired, instances) ==> Settled(out, epoch, desired, instances)
      invariant forall k :: HasRepair(out.repairs, k) <==> HasRepair(t.repairs, k)
      invariant forall s :: s in seeds[..i] ==> SeedAcceptable(s, t, epoch, instances)
    {
      var seed := seeds[i];
      AcceptableByKey(seed, out, t, epoch, desired, instances);
      if !SeedAcceptable(seed, out, epoch, instances) {
        return false, t;
      }
      assert seeds[..i + 1] == seeds[..i] + [seed] && seeds[..i + 1][..i] == seeds[..i];
      StoreOneValid(out, seed, epoch, desired, instances);
      if Settled(out, epoch, desired, instances) {
        StoreOneSettled(out, seed, epoch, desired, instances);
      }
      out := StoreOne(out, seed);
    }
    assert seeds[..|seeds|] == seeds;
    return true, out;
  }

  /** The same, for all seeds at once. */
  lemma {:induction false} StoreAllValid(t: Tasks, seeds: seq<Seed>, epoch: nat, desired: seq<TaskKey>,
                                         instances: map<NodeId, Instance>)
    requires TasksValid(t, epoch, desired)
    requires forall s :: s in seeds ==> SeedMatches(s) && SeedAcceptable(s, t, epoch, instances)
    ensures TasksValid(StoreAll(t, seeds), epoch, desired)
    ensures forall k :: HasRepair(StoreAll(t, seeds).repairs, k) <==> HasRepair(t.repairs, k)
    ensures forall a :: a in StoreAll(t, seeds).admissions ==> a in t.admissions || exists s :: s in seeds && a == s.admission
  {
    if seeds != [] {
      var init, last := seeds[..|seeds| - 1], seeds[|seeds| - 1];
      StoreAllValid(t, init, epoch, desired, instances);
      AcceptableByKey(last, StoreAll(t, init), t, epoch, desired, instances);
      StoreOneValid(StoreAll(t, init), last, epoch, desired, instances);
      StoreOneEffect(StoreAll(t, init), last, epoch, desired, instances);
    }
  }

  lemma AcceptableByKey(s: Seed, a: Tasks, b: Tasks, epoch: nat, desired: seq<TaskKey>, instances: map<NodeId, Instance>)
    requires TasksValid(a, epoch, desired) && TasksValid(b, epoch, desired)
    requires forall k :: HasRepair(a.repairs, k) <==> HasRepair(b.repairs, k)
    ensures SeedAcceptable(s, a, epoch, instances) <==> SeedAcceptable(s, b, epoch, instances)
  {
    var k := RepairKey(s.task);
    assert HasRepair(a.repairs, k) <==> exists r :: r in a.repairs && r.epoch == epoch && RepairKey(r) == k;
    assert HasRepair(b.repairs, k) <==> exists r :: r in b.repairs && r.epoch == epoch && RepairKey(r) == k;
  }

  lemma {:induction false} FinishFirstPointwise(s: seq<Repair>, epoch: nat, k: TaskKey)
    requires DistinctRepairs(s) && forall r :: r in s ==> r.epoch == epoch
    ensures forall i :: 0 <= i < |s| ==> FinishFirst(s, epoch, k)[i] == if RepairKey(s[i]) == k then Finished(s[i]) else s[i]
  {
    if s != [] {
      if RepairKey(s[0]) != k {
        FinishFirstPointwise(s[1..], epoch, k);
      }
    }
  }

  lemma {:induction false} DropAdmissionsElements(s: seq<Admission>, epoch: nat, k: TaskKey)
    requires DistinctAdmissions(s) && forall a :: a in s ==> a.epoch == epoch
    ensures DistinctAdmissions(DropAdmissions(s, epoch, k))
    ensures forall a :: a in DropAdmissions(s, epoch, k) <==> a in s && KeyOf(a) != k
  {
    if s != [] {
      var init, last := s[..|s| - 1], s[|s| - 1];
      assert s == init + [last];
      DropAdmissionsElements(init, epoch, k);
      var rest := DropAdmissions(init, epoch, k);
      assert forall i :: 0 <= i < |rest| ==> rest[i] in init;
    }
  }

  /** What storing one seed does: its task gets exactly its admission and a finished repair; every
      other task is untouched. */
  lemma StoreOneEffect(t: Tasks, s: Seed, epoch: nat, desired: seq<TaskKey>, instances: map<NodeId, Instance>)
    requires TasksValid(t, epoch, desired) && SeedMatches(s) && SeedAcceptable(s, t, epoch, instances)
    ensures var out := StoreOne(t, s); var k := RepairKey(s.task);
      && (forall a :: a in out.admissions <==> a == s.admission || (a in t.admissions && KeyOf(a) != k))
      && |out.repairs| == |t.repairs|
      && (forall i :: 0 <= i < |t.repairs| && RepairKey(t.repairs[i]) != k ==> out.repairs[i] == t.repairs[i])
      && (forall i :: 0 <= i < |t.repairs| && RepairKey(t.repairs[i]) == k ==>
            && RepairKey(out.repairs[i]) == k && out.repairs[i].epoch == epoch && out.repairs[i].phase == Complete
            && out.repairs[i].retryCount == 0 && out.repairs[i].nextAttempt == 0 && out.repairs[i].lastError == "")
  {
    DropAdmissionsElements(t.admissions, epoch, RepairKey(s.task));
    FinishFirstPointwise(t.repairs, epoch, RepairKey(s.task));
  }

  lemma StoreOneSettled(t: Tasks, s: Seed, epoch: nat, desired: seq<TaskKey>, instances: map<NodeId, Instance>)
    requires Settled(t, epoch, desired, instances) && SeedMatches(s) && SeedAcceptable(s, t, epoch, instances)
    ensures Settled(StoreOne(t, s), epoch, desired, instances)
  {
    StoreOneEffect(t, s, epoch, desired, instances);
    StoreOneValid(t, s, epoch, desired, instances);
    assert AdmissionCurrent(s.admission, epoch, desired, instances);
  }

  lemma StoreOneValid(t: Tasks, s: Seed, epoch: nat, desired: seq<TaskKey>, instances: map<NodeId, Instance>)
    requires TasksValid(t, epoch, desired) && SeedMatches(s) && SeedAcceptable(s, t, epoch, instances)
    ensures TasksValid(StoreOne(t, s), epoch, desired)
    ensures forall k :: HasRepair(StoreOne(t, s).repairs, k) <==> HasRepair(t.repairs, k)
  {
    var out, k := StoreOne(t, s), RepairKey(s.task);
    StoreOneEffect(t, s, epoch, desired, instances);
    DropAdmissionsElements(t.admissions, epoch, k);
    var kept := DropAdmissions(t.admissions, epoch, k);
    assert forall i :: 0 <= i < |kept| ==> kept[i] in kept;
    SameKeys(t.repairs, out.repairs);
    forall r | r in out.repairs
      ensures RepairCurrent(r, epoch, desired)
      ensures r.phase == Complete ==> RepairKey(r) in AdmittedKeys(out.admissions)
    {
      var i :| 0 <= i < |out.repairs| && out.repairs[i] == r;
      assert t.repairs[i] in t.repairs;
      if RepairKey(r) == k {
        assert s.admission in out.admissions;
      } else if r.phase == Complete {
        var a :| a in t.admissions && KeyOf(a) == RepairKey(r);
        assert a in out.admissions;
      }
    }
  }

  lemma SameKeys(a: seq<Repair>, b: seq<Repair>)
    requires |a| == |b| && forall i :: 0 <= i < |a| ==> RepairKey(a[i]) == RepairKey(b[i])
    ensures forall k :: HasRepair(a, k) <==> HasRepair(b, k)
    ensures DistinctRepairs(a) ==> DistinctRepairs(b)
  {
    forall k ensures HasRepair(a, k) <==> HasRepair(b, k) {
      if HasRepair(a, k) {
        var i :| 0 <= i < |a| && RepairKey(a[i]) == k;
        assert b[i] in b;
      }
      if HasRepair(b, k) {
        var i :| 0 <= i < |b| && RepairKey(b[i]) == k;
        assert a[i] in a;
      }
    }
  }
}
