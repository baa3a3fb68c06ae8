/**
 Receipts in a running cluster: every node's store, what is staged for its migrations and what is on its way, while
 nodes make, read, stage, commit, purge and forget receipts in any order. Whatever else happens, every receipt of a
 mutation outlives one retention period from the mutation's start, and a retry within the client's deadline finds it at
 whichever node has been handed the range.
 */
module Lifetimes {
  import opened Ring
  import opened Dedup
  import opened Journey
  import opened Runs

  /** A receipt on its way, with the time it was read. */
  datatype Message = Message(carried: Carried, readAt: nat)

  /** One migration's staging at its destination. */
  datatype Slot = Slot(node: NodeId, migration: nat)

  datatype World = World(now: nat, stores: map<NodeId, Receipts>, staged: map<Slot, StagedReceipts>, sent: set<Message>)

  /** Retention and sizes, the same at every node. */
  datatype Terms = Terms(retentionMillis: nat, sizes: Sizes, entryBytes: nat)

  datatype Event =
    | Tick(now: nat)
    | Make(node: NodeId, id: MutationId, receipt: Receipt)
    | Acknowledge(node: NodeId, id: MutationId, bytes: nat, acks: seq<RequiredAck>)
    | Read(node: NodeId, id: MutationId, ownerBytes: nat)
    | Stage(slot: Slot, message: Message)
    | Commit(slot: Slot)
    | Purge(node: NodeId)
    | PurgeStaged(slot: Slot)
    | Forget(node: NodeId, ids: set<MutationId>)
    | Abandon(slot: Slot)

  function StoreOf(w: World, n: NodeId): Receipts {
    if n in w.stores then w.stores[n] else map[]
  }

  function StagedOf(w: World, s: Slot): StagedReceipts {
    if s in w.staged then w.staged[s] else map[]
  }

  function Nanos(t: Terms): nat {
    t.retentionMillis * NANOS_PER_MILLI
  }

  /** What a source sends of a receipt it holds. */
  function MessageOf(w: World, n: NodeId, id: MutationId, ownerBytes: nat, t: Terms): Message
    requires id in StoreOf(w, n)
  {
    Message(Sent(StoreOf(w, n)[id], id, w.now, ownerBytes, t.retentionMillis), w.now)
  }

  /** A made receipt lives one retention period; a staged message was sent and has time left; a commit merges what can be
      merged. */
  ghost predicate Enabled(w: World, e: Event, t: Terms) {
    match e
    case Tick(now) => now >= w.now
    case Make(_, _, receipt) => receipt.expiresAt == w.now + Nanos(t)
    case Acknowledge(n, id, _, _) => id in StoreOf(w, n)
    case Stage(_, message) => message in w.sent && message.carried.remainingMillis > 0
    case Commit(slot) => Filed(StagedOf(w, slot))
    case _ => true
  }

  ghost function Next(w: World, e: Event, t: Terms): World
    requires Enabled(w, e, t)
  {
    match e
    case Tick(now) => w.(now := now)
    case Make(n, id, receipt) => w.(stores := w.stores[n := StoreOf(w, n)[id := receipt]])
    case Acknowledge(n, id, bytes, acks) =>
      w.(stores := w.stores[n := StoreOf(w, n)[id := StoreOf(w, n)[id].(bytes := bytes, acks := acks)]])
    case Read(n, id, ownerBytes) =>
      if id in StoreOf(w, n) then w.(sent := w.sent + {MessageOf(w, n, id, ownerBytes, t)}) else w
    case Stage(slot, message) =>
      var after := StagedWith(StagedOf(w, slot), message.carried, w.now, t.retentionMillis, t.entryBytes);
      w.(staged := w.staged[slot := after])
    case Commit(slot) =>
      var after := Committed(StoreOf(w, slot.node), StagedOf(w, slot), t.sizes, w.now);
      w.(stores := w.stores[slot.node := after], staged := w.staged - {slot})
    case Purge(n) => w.(stores := w.stores[n := Unexpired(StoreOf(w, n), w.now)])
    case PurgeStaged(slot) => w.(staged := w.staged[slot := UnexpiredStaged(StagedOf(w, slot), w.now)])
    case Forget(n, ids) => w.(stores := w.stores[n := StoreOf(w, n) - ids])
    case Abandon(slot) => w.(staged := w.staged - {slot})
  }

  /** A run from the moment a mutation starts, whose id nobody knows yet. */
  datatype Run = Run(worlds: seq<World>, events: seq<Event>)

  ghost predicate StepAt(run: Run, t: Terms, i: nat)
    requires i < |run.events| && |run.worlds| == |run.events| + 1
  {
    Enabled(run.worlds[i], run.events[i], t) && run.worlds[i + 1] == Next(run.worlds[i], run.events[i], t)
  }

  ghost predicate Unknown(w: World, id: MutationId) {
    && (forall n :: id !in StoreOf(w, n))
    && (forall s :: id !in StagedOf(w, s) && Filed(StagedOf(w, s)))
    && (forall m :: m in w.sent ==> m.carried.id != id && m.carried.version.Some? && m.readAt <= w.now)
  }

  ghost predicate IsRun(run: Run, t: Terms, id: MutationId, start: nat) {
    && |run.worlds| == |run.events| + 1 && run.worlds[0].now == start && Unknown(run.worlds[0], id)
    && forall i :: 0 <= i < |run.events| ==> StepAt(run, t, i)
  }

  // ----- Every receipt outlives the retention period -----

  ghost predicate StoreOutlives(m: Receipts, id: MutationId, floor: nat) {
    id in m ==> m[id].expiresAt >= floor
  }

  ghost predicate StagedOutlives(m: StagedReceipts, id: MutationId, floor: nat) {
    Filed(m) && (id in m ==> m[id].expiresAt >= floor)
  }

  ghost predicate MessageOutlives(m: Message, id: MutationId, floor: nat, now: nat, t: Terms) {
    && m.carried.version.Some? && m.readAt <= now
    && (m.carried.id == id ==> && m.readAt + m.carried.remainingMillis * NANOS_PER_MILLI >= floor
                               && m.carried.remainingMillis <= t.retentionMillis)
  }

  ghost predicate Outlives(w: World, id: MutationId, start: nat, t: Terms) {
    && start <= w.now
    && (forall n :: StoreOutlives(StoreOf(w, n), id, start + Nanos(t)))
    && (forall s :: StagedOutlives(StagedOf(w, s), id, start + Nanos(t)))
    && (forall m :: m in w.sent ==> MessageOutlives(m, id, start + Nanos(t), w.now, t))
  }

  /** Reading neither rounds down nor caps below the floor. */
  lemma ReadOutlives(w: World, n: NodeId, id: MutationId, ownerBytes: nat, start: nat, t: Terms)
    requires start <= w.now && id in StoreOf(w, n) && StoreOf(w, n)[id].expiresAt >= start + Nanos(t)
    ensures MessageOutlives(MessageOf(w, n, id, ownerBytes, t), id, start + Nanos(t), w.now, t)
  {
    var expiresAt := StoreOf(w, n)[id].expiresAt;
    RemainingCovers(expiresAt, w.now, t.retentionMillis);
    if expiresAt > w.now + Nanos(t) && t.retentionMillis > 0 {
      RemainingIsPositive(expiresAt, w.now, t.retentionMillis);
    }
  }

  lemma StageOutlives(m: StagedReceipts, x: Message, id: MutationId, floor: nat, now: nat, t: Terms)
    requires StagedOutlives(m, id, floor) && MessageOutlives(x, id, floor, now, t)
    ensures StagedOutlives(StagedWith(m, x.carried, now, t.retentionMillis, t.entryBytes), id, floor)
  {
  }

  lemma CommitOutlives(store: Receipts, staged: StagedReceipts, sizes: Sizes, now: nat, id: MutationId, floor: nat)
    requires StoreOutlives(store, id, floor) && StagedOutlives(staged, id, floor)
    ensures StoreOutlives(Committed(store, staged, sizes, now), id, floor)
  {
  }

  lemma StoreStepOutlives(w: World, n: NodeId, m: Receipts, id: MutationId, start: nat, t: Terms)
    requires Outlives(w, id, start, t) && StoreOutlives(m, id, start + Nanos(t))
    ensures Outlives(w.(stores := w.stores[n := m]), id, start, t)
  {
    var w' := w.(stores := w.stores[n := m]);
    forall x ensures StoreOutlives(StoreOf(w', x), id, start + Nanos(t)) {
      assert StoreOutlives(StoreOf(w, x), id, start + Nanos(t));
    }
    forall x ensures StagedOutlives(StagedOf(w', x), id, start + Nanos(t)) {
      assert StagedOutlives(StagedOf(w, x), id, start + Nanos(t));
    }
  }

  lemma StagedStepOutlives(w: World, s: Slot, staged: map<Slot, StagedReceipts>, id: MutationId, start: nat, t: Terms)
    requires Outlives(w, id, start, t) && (s in staged ==> StagedOutlives(staged[s], id, start + Nanos(t)))
    requires forall x :: x != s ==> (x in staged <==> x in w.staged) && (x in staged ==> staged[x] == w.staged[x])
    ensures Outlives(w.(staged := staged), id, start, t)
  {
    var w' := w.(staged := staged);
    forall x ensures StoreOutlives(StoreOf(w', x), id, start + Nanos(t)) {
      assert StoreOutlives(StoreOf(w, x), id, start + Nanos(t));
    }
    forall x ensures StagedOutlives(StagedOf(w', x), id, start + Nanos(t)) {
      assert StagedOutlives(StagedOf(w, x), id, start + Nanos(t));
    }
  }

  /** The store a node is left with by one of its own events. */
  lemma OwnStoreOutlives(w: World, e: Event, n: NodeId, id: MutationId, start: nat, t: Terms)
    requires Outlives(w, id, start, t) && Enabled(w, e, t)
    requires (e.Make? || e.Acknowledge? || e.Purge? || e.Forget?) && e.node == n
    ensures StoreOutlives(StoreOf(Next(w, e, t), n), id, start + Nanos(t))
  {
    assert StoreOutlives(StoreOf(w, n), id, start + Nanos(t));
  }

  lemma OwnStepOutlives(w: World, e: Event, id: MutationId, start: nat, t: Terms)
    requires Outlives(w, id, start, t) && Enabled(w, e, t) && (e.Make? || e.Acknowledge? || e.Purge? || e.Forget?)
    ensures Outlives(Next(w, e, t), id, start, t)
  {
    OwnStoreOutlives(w, e, e.node, id, start, t);
    StoreStepOutlives(w, e.node, StoreOf(Next(w, e, t), e.node), id, start, t);
  }

  lemma ReadStepOutlives(w: World, e: Event, id: MutationId, start: nat, t: Terms)
    requires Outlives(w, id, start, t) && Enabled(w, e, t) && e.Read?
    ensures Outlives(Next(w, e, t), id, start, t)
  {
    if e.id in StoreOf(w, e.node) {
      var m := MessageOf(w, e.node, e.id, e.ownerBytes, t);
      if e.id == id {
        assert StoreOutlives(StoreOf(w, e.node), id, start + Nanos(t));
        ReadOutlives(w, e.node, id, e.ownerBytes, start, t);
      }
      assert MessageOutlives(m, id, start + Nanos(t), w.now, t);
      SentOutlives(w, m, id, start, t);
    }
  }

  lemma SentOutlives(w: World, m: Message, id: MutationId, start: nat, t: Terms)
    requires Outlives(w, id, start, t) && MessageOutlives(m, id, start + Nanos(t), w.now, t)
    ensures Outlives(w.(sent := w.sent + {m}), id, start, t)
  {
    var w' := w.(sent := w.sent + {m});
    forall x ensures StoreOutlives(StoreOf(w', x), id, start + Nanos(t)) {
      assert StoreOutlives(StoreOf(w, x), id, start + Nanos(t));
    }
    forall x ensures StagedOutlives(StagedOf(w', x), id, start + Nanos(t)) {
      assert StagedOutlives(StagedOf(w, x), id, start + Nanos(t));
    }
  }

  lemma TickOutlives(w: World, now: nat, id: MutationId, start: nat, t: Terms)
    requires Outlives(w, id, start, t) && w.now <= now
    ensures Outlives(w.(now := now), id, start, t)
  {
    var w' := w.(now := now);
    forall x ensures StoreOutlives(StoreOf(w', x), id, start + Nanos(t)) {
      assert StoreOutlives(StoreOf(w, x), id, start + Nanos(t));
    }
    forall x ensures StagedOutlives(StagedOf(w', x), id, start + Nanos(t)) {
      assert StagedOutlives(StagedOf(w, x), id, start + Nanos(t));
    }
  }

  lemma SlotStepOutlives(w: World, e: Event, id: MutationId, start: nat, t: Terms)
    requires Outlives(w, id, start, t) && Enabled(w, e, t) && (e.Stage? || e.PurgeStaged? || e.Abandon?)
    ensures Outlives(Next(w, e, t), id, start, t)
  {
    assert StagedOutlives(StagedOf(w, e.slot), id, start + Nanos(t));
    if e.Stage? { StageOutlives(StagedOf(w, e.slot), e.message, id, start + Nanos(t), w.now, t); }
    StagedStepOutlives(w, e.slot, Next(w, e, t).staged, id, start, t);
  }

  lemma CommitStepOutlives(w: World, e: Event, id: MutationId, start: nat, t: Terms)
    requires Outlives(w, id, start, t) && Enabled(w, e, t) && e.Commit?
    ensures Outlives(Next(w, e, t), id, start, t)
  {
    var n := e.slot.node;
    assert StoreOutlives(StoreOf(w, n), id, start + Nanos(t));
    assert StagedOutlives(StagedOf(w, e.slot), id, start + Nanos(t));
    var after := Committed(StoreOf(w, n), StagedOf(w, e.slot), t.sizes, w.now);
    CommitOutlives(StoreOf(w, n), StagedOf(w, e.slot), t.sizes, w.now, id, start + Nanos(t));
    StoreStepOutlives(w, n, after, id, start, t);
    StagedStepOutlives(w.(stores := w.stores[n := after]), e.slot, w.staged - {e.slot}, id, start, t);
  }

  lemma StepOutlives(w: World, e: Event, id: MutationId, start: nat, t: Terms)
    requires Outlives(w, id, start, t) && Enabled(w, e, t)
    ensures Outlives(Next(w, e, t), id, start, t)
  {
    if e.Tick? {
      TickOutlives(w, e.now, id, start, t);
    } else if e.Read? {
      ReadStepOutlives(w, e, id, start, t);
    } else if e.Commit? {
      CommitStepOutlives(w, e, id, start, t);
    } else if e.Stage? || e.PurgeStaged? || e.Abandon? {
      SlotStepOutlives(w, e, id, start, t);
    } else {
      OwnStepOutlives(w, e, id, start, t);
    }
  }

  lemma UnknownOutlives(w: World, id: MutationId, start: nat, t: Terms)
    requires Unknown(w, id) && w.now == start
    ensures Outlives(w, id, start, t)
  {
    forall x ensures StoreOutlives(StoreOf(w, x), id, start + Nanos(t)) {
      assert id !in StoreOf(w, x);
    }
    forall x ensures StagedOutlives(StagedOf(w, x), id, start + Nanos(t)) {
      assert id !in StagedOf(w, x);
    }
  }

  lemma StepAtOutlives(run: Run, t: Terms, id: MutationId, start: nat, i: nat)
    requires i < |run.events| && |run.worlds| == |run.events| + 1 && StepAt(run, t, i)
    requires Outlives(run.worlds[i], id, start, t)
    ensures Outlives(run.worlds[i + 1], id, start, t)
  {
    StepOutlives(run.worlds[i], run.events[i], id, start, t);
  }

  /** In every run, every receipt of the mutation, stored or staged anywhere, expires no earlier than one retention period
      after the mutation's start. */
  lemma ReceiptsOutlive(run: Run, t: Terms, id: MutationId, start: nat, i: nat)
    requires IsRun(run, t, id, start) && i < |run.worlds|
    ensures Outlives(run.worlds[i], id, start, t)
  {
    UnknownOutlives(run.worlds[0], id, start, t);
    var inv := w => Outlives(w, id, start, t);
    forall j | 0 <= j && j + 1 < |run.worlds| && inv(run.worlds[j]) ensures Keeps(run.worlds, inv, j) {
      StepAtOutlives(run, t, id, start, j);
    }
    Throughout(run.worlds, inv, 0, i);
  }

  // ----- Custody -----

  /** The event takes the receipt from the node: it forgets it. Time alone does not. */
  predicate Drops(e: Event, n: NodeId, id: MutationId) {
    e.Forget? && e.node == n && id in e.ids
  }

  predicate Clears(e: Event, s: Slot) {
    (e.Commit? || e.Abandon?) && e.slot == s
  }

  ghost predicate Untouched(run: Run, n: NodeId, id: MutationId, i: nat, j: nat) {
    i <= j <= |run.events| && forall k :: i <= k < j ==> !Drops(run.events[k], n, id)
  }

  ghost predicate Kept(run: Run, s: Slot, i: nat, j: nat) {
    i <= j <= |run.events| && forall k :: i <= k < j ==> !Clears(run.events[k], s)
  }

  /** Before its floor a receipt leaves a store only if the node forgets it. */
  lemma StaysStored(w: World, e: Event, n: NodeId, id: MutationId, start: nat, t: Terms)
    requires Enabled(w, e, t) && Outlives(w, id, start, t) && w.now < start + Nanos(t)
    requires id in StoreOf(w, n) && !Drops(e, n, id)
    ensures id in StoreOf(Next(w, e, t), n)
  {
    assert StoreOutlives(StoreOf(w, n), id, start + Nanos(t));
  }

  lemma StaysStaged(w: World, e: Event, s: Slot, id: MutationId, start: nat, t: Terms)
    requires Enabled(w, e, t) && Outlives(w, id, start, t) && w.now < start + Nanos(t)
    requires id in StagedOf(w, s) && !Clears(e, s)
    ensures id in StagedOf(Next(w, e, t), s)
  {
    assert StagedOutlives(StagedOf(w, s), id, start + Nanos(t));
  }

  lemma {:induction false} TimeRises(run: Run, t: Terms, id: MutationId, start: nat, i: nat, j: nat)
    requires IsRun(run, t, id, start) && i <= j < |run.worlds|
    ensures run.worlds[i].now <= run.worlds[j].now
  {
    if i < j {
      TimeRises(run, t, id, start, i, j - 1);
      assert StepAt(run, t, j - 1);
    }
  }

  lemma {:induction false} StoredOn(run: Run, t: Terms, id: MutationId, start: nat, n: NodeId, i: nat, j: nat)
    requires IsRun(run, t, id, start) && Untouched(run, n, id, i, j) && id in StoreOf(run.worlds[i], n)
    requires run.worlds[j].now < start + Nanos(t)
    ensures id in StoreOf(run.worlds[j], n)
  {
    if i < j {
      TimeRises(run, t, id, start, j - 1, j);
      StoredOn(run, t, id, start, n, i, j - 1);
      ReceiptsOutlive(run, t, id, start, j - 1);
      assert StepAt(run, t, j - 1);
      StaysStored(run.worlds[j - 1], run.events[j - 1], n, id, start, t);
    }
  }

  lemma {:induction false} StagedOn(run: Run, t: Terms, id: MutationId, start: nat, s: Slot, i: nat, j: nat)
    requires IsRun(run, t, id, start) && Kept(run, s, i, j) && id in StagedOf(run.worlds[i], s)
    requires run.worlds[j].now < start + Nanos(t)
    ensures id in StagedOf(run.worlds[j], s)
  {
    if i < j {
      TimeRises(run, t, id, start, j - 1, j);
      StagedOn(run, t, id, start, s, i, j - 1);
      ReceiptsOutlive(run, t, id, start, j - 1);
      assert StepAt(run, t, j - 1);
      StaysStaged(run.worlds[j - 1], run.events[j - 1], s, id, start, t);
    }
  }

  /** One migration of the mutation's key: the source is read, what it had of the mutation is staged at the destination, and
      the destination commits. */
  datatype Handover = Handover(source: NodeId, slot: Slot, ownerBytes: nat, read: nat, stage: nat, commit: nat)

  ghost predicate HandedOver(run: Run, t: Terms, id: MutationId, h: Handover)
    requires |run.worlds| == |run.events| + 1
  {
    && h.read < h.stage < h.commit < |run.events|
    && run.events[h.read] == Read(h.source, id, h.ownerBytes)
    && (id in StoreOf(run.worlds[h.read], h.source)
        ==> run.events[h.stage] == Stage(h.slot, MessageOf(run.worlds[h.read], h.source, id, h.ownerBytes, t)))
    && Kept(run, h.slot, h.stage + 1, h.commit) && run.events[h.commit] == Commit(h.slot)
  }

  /** The range of the mutation's key is at node n in front of event i: at the node that made the receipt, or handed over
      since, and nobody has forgotten a receipt of a range it owns. */
  ghost predicate Custody(run: Run, t: Terms, id: MutationId, made: nat, hs: seq<Handover>, n: NodeId, i: nat)
    requires |run.worlds| == |run.events| + 1
  {
    if hs == [] then
      && made < i <= |run.events| && run.events[made].Make? && run.events[made].node == n && run.events[made].id == id
      && Untouched(run, n, id, made + 1, i)
    else
      var last := hs[|hs| - 1];
      && Custody(run, t, id, made, hs[..|hs| - 1], last.source, last.read) && HandedOver(run, t, id, last)
      && last.slot.node == n && last.commit < i && Untouched(run, n, id, last.commit + 1, i)
  }

  lemma HandoverDelivers(run: Run, t: Terms, id: MutationId, start: nat, h: Handover)
    requires IsRun(run, t, id, start) && HandedOver(run, t, id, h) && id in StoreOf(run.worlds[h.read], h.source)
    requires run.worlds[h.commit].now < start + Nanos(t)
    ensures id in StoreOf(run.worlds[h.commit + 1], h.slot.node)
  {
    assert StepAt(run, t, h.stage);
    assert id in StagedOf(run.worlds[h.stage + 1], h.slot);
    StagedOn(run, t, id, start, h.slot, h.stage + 1, h.commit);
    ReceiptsOutlive(run, t, id, start, h.commit);
    assert StagedOutlives(StagedOf(run.worlds[h.commit], h.slot), id, start + Nanos(t));
    assert StepAt(run, t, h.commit);
  }

  /** Whoever has the range has the receipt, for a whole retention period from the mutation's start. */
  lemma {:induction false} CustodyHolds(run: Run, t: Terms, id: MutationId, start: nat, made: nat, hs: seq<Handover>,
                                        n: NodeId, i: nat)
    requires IsRun(run, t, id, start) && Custody(run, t, id, made, hs, n, i) && run.worlds[i].now < start + Nanos(t)
    ensures id in StoreOf(run.worlds[i], n)
  {
    if hs == [] {
      assert StepAt(run, t, made);
      StoredOn(run, t, id, start, n, made + 1, i);
    } else {
      var last := hs[|hs| - 1];
      TimeRises(run, t, id, start, last.read, i);
      TimeRises(run, t, id, start, last.commit, i);
      CustodyHolds(run, t, id, start, made, hs[..|hs| - 1], last.source, last.read);
      HandoverDelivers(run, t, id, start, last);
      StoredOn(run, t, id, start, n, last.commit + 1, i);
    }
  }

  /** A retry that the node in charge processes before the client's deadline finds the mutation's receipt after purging at
      that moment, in every run: the deadline and the runs' own steps are all it rests on. */
  lemma {:induction false} RetryFindsReceipt(run: Run, t: Terms, id: MutationId, start: nat, operationTimeout: nat,
                                             made: nat, hs: seq<Handover>, n: NodeId, i: nat)
    requires IsRun(run, t, id, start) && Custody(run, t, id, made, hs, n, i)
    requires run.worlds[i].now < MutationDeadline(start, operationTimeout, t.retentionMillis)
    ensures id in Unexpired(StoreOf(run.worlds[i], n), run.worlds[i].now)
  {
    CustodyHolds(run, t, id, start, made, hs, n, i);
    ReceiptsOutlive(run, t, id, start, i);
    assert StoreOutlives(StoreOf(run.worlds[i], n), id, start + Nanos(t));
  }

  // ----- Custody can move on -----

  /** The longer run goes on from the shorter. */
  ghost predicate GoesOn(run: Run, longer: Run) {
    && |run.worlds| == |run.events| + 1 && |longer.worlds| == |longer.events| + 1 && |run.events| <= |longer.events|
    && run.worlds == longer.worlds[..|run.worlds|] && run.events == longer.events[..|run.events|]
  }

  function Last(run: Run): World
    requires |run.worlds| > 0
  {
    run.worlds[|run.worlds| - 1]
  }

  lemma Extend(run: Run, t: Terms, id: MutationId, start: nat, e: Event) returns (longer: Run)
    requires IsRun(run, t, id, start) && Enabled(Last(run), e, t)
    ensures IsRun(longer, t, id, start) && GoesOn(run, longer)
    ensures longer.events == run.events + [e] && Last(longer) == Next(Last(run), e, t)
  {
    longer := Run(run.worlds + [Next(Last(run), e, t)], run.events + [e]);
    forall i | 0 <= i < |longer.events| ensures StepAt(longer, t, i) {
      if i < |run.events| { assert StepAt(run, t, i); }
    }
  }

  lemma GoesOnAndOn(a: Run, b: Run, c: Run)
    requires GoesOn(a, b) && GoesOn(b, c)
    ensures GoesOn(a, c)
  {
    assert c.worlds[..|a.worlds|] == c.worlds[..|b.worlds|][..|a.worlds|];
    assert c.events[..|a.events|] == c.events[..|b.events|][..|a.events|];
  }

  lemma HandedOverStays(run: Run, longer: Run, t: Terms, id: MutationId, h: Handover)
    requires GoesOn(run, longer) && HandedOver(run, t, id, h)
    ensures HandedOver(longer, t, id, h)
  {
    assert longer.worlds[h.read] == run.worlds[h.read];
    assert forall k :: 0 <= k < |run.events| ==> longer.events[k] == run.events[k];
  }

  lemma {:induction false} CustodyStays(run: Run, longer: Run, t: Terms, id: MutationId, made: nat, hs: seq<Handover>,
                                        n: NodeId, i: nat)
    requires GoesOn(run, longer) && Custody(run, t, id, made, hs, n, i)
    ensures Custody(longer, t, id, made, hs, n, i) && i <= |run.events|
  {
    assert forall k :: 0 <= k < |run.events| ==> longer.events[k] == run.events[k];
    if hs != [] {
      var last := hs[|hs| - 1];
      CustodyStays(run, longer, t, id, made, hs[..|hs| - 1], last.source, last.read);
      HandedOverStays(run, longer, t, id, last);
    }
  }

  /** A receipt with time left can be read, staged and committed at any node. */
  lemma ReceiptCanMove(run: Run, t: Terms, id: MutationId, start: nat, n: NodeId, slot: Slot, ownerBytes: nat)
    returns (longer: Run, h: Handover)
    requires IsRun(run, t, id, start) && id in StoreOf(Last(run), n)
    requires StoreOf(Last(run), n)[id].expiresAt > Last(run).now && t.retentionMillis > 0
    ensures IsRun(longer, t, id, start) && GoesOn(run, longer) && HandedOver(longer, t, id, h)
    ensures h == Handover(n, slot, ownerBytes, |run.events|, |run.events| + 1, |run.events| + 2)
    ensures |longer.events| == |run.events| + 3 && Last(longer).now == Last(run).now
  {
    var m := MessageOf(Last(run), n, id, ownerBytes, t);
    RemainingIsPositive(StoreOf(Last(run), n)[id].expiresAt, Last(run).now, t.retentionMillis);
    var read := Extend(run, t, id, start, Read(n, id, ownerBytes));
    var staged := Extend(read, t, id, start, Stage(slot, m));
    ReceiptsOutlive(staged, t, id, start, |staged.worlds| - 1);
    assert StagedOutlives(StagedOf(Last(staged), slot), id, start + Nanos(t));
    longer := Extend(staged, t, id, start, Commit(slot));
    GoesOnAndOn(run, read, staged);
    GoesOnAndOn(run, staged, longer);
    h := Handover(n, slot, ownerBytes, |run.events|, |run.events| + 1, |run.events| + 2);
  }

  /** In every run, within the retention period, whoever is in charge can hand the range to any node over any migration:
      custody is never stuck. */
  lemma CustodyCanMove(run: Run, t: Terms, id: MutationId, start: nat, made: nat, hs: seq<Handover>, n: NodeId, slot: Slot)
    returns (longer: Run, h: Handover)
    requires IsRun(run, t, id, start) && Custody(run, t, id, made, hs, n, |run.events|)
    requires Last(run).now < start + Nanos(t)
    ensures IsRun(longer, t, id, start) && GoesOn(run, longer) && Last(longer).now == Last(run).now
    ensures Custody(longer, t, id, made, hs + [h], slot.node, |longer.events|)
    ensures id in StoreOf(Last(longer), slot.node)
  {
    CustodyHolds(run, t, id, start, made, hs, n, |run.events|);
    ReceiptsOutlive(run, t, id, start, |run.events|);
    assert StoreOutlives(StoreOf(Last(run), n), id, start + Nanos(t));
    longer, h := ReceiptCanMove(run, t, id, start, n, slot, 0);
    CustodyStays(run, longer, t, id, made, hs, n, |run.events|);
    CustodyMoves(longer, t, id, made, hs, h);
    CustodyHolds(longer, t, id, start, made, hs + [h], slot.node, |longer.events|);
  }

  lemma {:induction false} CustodyMoves(run: Run, t: Terms, id: MutationId, made: nat, hs: seq<Handover>, h: Handover)
    requires |run.worlds| == |run.events| + 1 && Custody(run, t, id, made, hs, h.source, h.read)
    requires HandedOver(run, t, id, h) && h.commit + 1 == |run.events|
    ensures Custody(run, t, id, made, hs + [h], h.slot.node, |run.events|)
  {
    assert (hs + [h])[..|hs|] == hs;
  }
}
