/**
 The journey of a deduplication receipt. A source reads what is left of it, a destination stages it and commits it to its
 store, where a receipt the destination already holds is kept instead. However often a receipt moves, it outlives one
 retention period from the start of its mutation.
 */
module Journey {
  import opened Topology
  import opened Dedup

  // ----- Remaining time -----

  function DivCeil(a: nat, b: nat): nat
    requires b > 0
  {
    (a + b - 1) / b
  }

  /** `remaining_retention_millis`: what is left of a receipt, in whole milliseconds rounded up, and capped. */
  function RemainingMillis(expiresAt: nat, now: nat, retentionMillis: nat): nat {
    if expiresAt <= now then 0 else Min(DivCeil(expiresAt - now, NANOS_PER_MILLI), retentionMillis)
  }

  /** The cap never bites a receipt that was given at most the retention period, and the rounding never shortens it. */
  lemma RemainingCovers(expiresAt: nat, now: nat, retentionMillis: nat)
    ensures RemainingMillis(expiresAt, now, retentionMillis) * NANOS_PER_MILLI >= expiresAt - now
       <==> expiresAt <= now + retentionMillis * NANOS_PER_MILLI
    ensures RemainingMillis(expiresAt, now, retentionMillis) <= retentionMillis
  {
    if expiresAt > now {
      var d, n := expiresAt - now, NANOS_PER_MILLI;
      var q := DivCeil(d, n);
      assert (d + n - 1) == q * n + (d + n - 1) % n;
      assert d <= q * n < d + n;
      if q <= retentionMillis {
        assert q * n <= retentionMillis * n;
      } else {
        assert q - 1 >= retentionMillis;
        assert (q - 1) * n >= retentionMillis * n;
      }
    }
  }

  // ----- The commit -----

  function UnexpiredStaged(m: StagedReceipts, now: nat): StagedReceipts {
    map id | id in m && m[id].expiresAt > now :: m[id]
  }

  function ReceiptOf(s: StagedReceipt, sizes: Sizes): Receipt
    requires s.record.version.Some?
  {
    var r := s.record;
    Receipt(r.key, r.fingerprint, r.version.value, r.deleted, BaseBytes(sizes, r.id, r.key, r.ownerBytes), s.expiresAt, [])
  }

  /** Receipts that are there stay as they are, and staged ones fill the gaps. */
  function Filled(kept: Receipts, added: StagedReceipts, sizes: Sizes): Receipts
    requires Filed(added)
  {
    map id | id in kept.Keys + added.Keys :: if id in kept then kept[id] else ReceiptOf(added[id], sizes)
  }

  /** The store after a commit, which counts only unexpired receipts on either side. */
  function Committed(store: Receipts, staged: StagedReceipts, sizes: Sizes, now: nat): Receipts
    requires Filed(staged)
  {
    Filled(Unexpired(store, now), UnexpiredStaged(staged, now), sizes)
  }

  /** Nothing expired is committed. */
  lemma CommittedAreUnexpired(store: Receipts, staged: StagedReceipts, sizes: Sizes, now: nat, id: MutationId)
    requires Filed(staged) && id in Committed(store, staged, sizes, now)
    ensures Committed(store, staged, sizes, now)[id].expiresAt > now
  {
  }

  /** The destination holds another mutation under a staged id. */
  predicate Clashes(kept: Receipts, added: StagedReceipts, id: MutationId) {
    && id in kept && id in added
    && (kept[id].fingerprint != added[id].record.fingerprint || Some(kept[id].version) != added[id].record.version
        || kept[id].deleted != added[id].record.deleted)
  }

  datatype CommitOutcome = Done | Clash | NoRoom

  lemma FilledGrows(kept: Receipts, done: StagedReceipts, sizes: Sizes, id: MutationId, x: StagedReceipt)
    requires Filed(done) && id !in done && x.record.id == id && x.record.version.Some?
    ensures Filed(done[id := x])
    ensures Weight(kept, done[id := x], sizes)
         == Weight(kept, done, sizes) + if id in kept then 0 else BaseBytes(sizes, id, x.record.key, x.record.ownerBytes)
  {
    var before, after := Filled(kept, done, sizes), Filled(kept, done[id := x], sizes);
    if id in kept {
      assert after == before;
    } else {
      assert after == before[id := ReceiptOf(x, sizes)];
      assert before - {id} == before;
      ChargesWith(before, id, ReceiptOf(x, sizes));
    }
  }

  /** What the store would retain with the staged receipts in it. */
  ghost function Weight(kept: Receipts, done: StagedReceipts, sizes: Sizes): nat
    requires Filed(done)
  {
    TotalBytes(Charges(Filled(kept, done, sizes)))
  }

  /** `done` has been looked at without a clash, `rest` has not been looked at. */
  ghost predicate Looked(kept: Receipts, added: StagedReceipts, rest: StagedReceipts, done: StagedReceipts) {
    && (forall id :: id in added <==> id in rest || id in done)
    && (forall id :: id in rest ==> id !in done && rest[id] == added[id])
    && (forall id :: id in done ==> done[id] == added[id] && !Clashes(kept, added, id))
  }

  lemma LookStep(kept: Receipts, added: StagedReceipts, rest: StagedReceipts, done: StagedReceipts, id: MutationId)
    requires Looked(kept, added, rest, done) && id in rest && !Clashes(kept, added, id)
    ensures Looked(kept, added, rest - {id}, done[id := rest[id]])
  {
  }

  lemma LookEnds(kept: Receipts, added: StagedReceipts, done: StagedReceipts)
    requires Looked(kept, added, map[], done)
    ensures done == added && !exists id :: Clashes(kept, added, id)
  {
  }

  /** The first pass: a clash, or exactly the bytes the staged receipts will add. */
  method WeighStaged(kept: Receipts, added: StagedReceipts, sizes: Sizes) returns (clash: bool, bytes: nat)
    requires Filed(added)
    ensures clash <==> exists id :: Clashes(kept, added, id)
    ensures !clash ==> TotalBytes(Charges(kept)) + bytes == TotalBytes(Charges(Filled(kept, added, sizes)))
  {
    var rest := added;
    ghost var done: StagedReceipts := map[];
    bytes := 0;
    assert Filled(kept, done, sizes) == kept;
    while rest != map[]
      invariant Looked(kept, added, rest, done) && Filed(done)
      invariant TotalBytes(Charges(kept)) + bytes == Weight(kept, done, sizes)
      decreases |rest|
    {
      var id :| id in rest;
      if Clashes(kept, added, id) { return true, bytes; }
      FilledGrows(kept, done, sizes, id, rest[id]);
      LookStep(kept, added, rest, done, id);
      if id !in kept {
        bytes := bytes + BaseBytes(sizes, id, rest[id].record.key, rest[id].record.ownerBytes);
      }
      done, rest := done[id := rest[id]], rest - {id};
    }
    LookEnds(kept, added, done);
    return false, bytes;
  }

  /** What is inserted so far: all but `rest`. */
  ghost predicate Filling(kept: Receipts, added: StagedReceipts, rest: StagedReceipts, now: Receipts, sizes: Sizes) {
    && Filed(added)
    && (forall id :: id in rest ==> id in added && rest[id] == added[id])
    && (forall id :: id in now <==> id in kept || (id in added && id !in rest))
    && (forall id :: id in now ==> now[id] == if id in kept then kept[id] else ReceiptOf(added[id], sizes))
  }

  lemma FillStep(kept: Receipts, added: StagedReceipts, rest: StagedReceipts, now: Receipts, sizes: Sizes, id: MutationId)
    requires Filling(kept, added, rest, now, sizes) && id in rest
    ensures id in now ==> Filling(kept, added, rest - {id}, now, sizes)
    ensures id !in now ==> Filling(kept, added, rest - {id}, now[id := ReceiptOf(rest[id], sizes)], sizes)
  {
  }

  lemma FillEnds(kept: Receipts, added: StagedReceipts, now: Receipts, sizes: Sizes)
    requires Filling(kept, added, map[], now, sizes)
    ensures now == Filled(kept, added, sizes)
  {
  }

  /** The second pass: a staged receipt is inserted unless its id is there. */
  method InsertStaged(store: Store, added: StagedReceipts)
    requires store.Valid() && Filed(added)
    modifies store
    ensures store.Valid() && store.dedup == Filled(old(store.dedup), added, store.sizes)
  {
    var rest := added;
    while rest != map[]
      invariant store.Valid() && Filling(old(store.dedup), added, rest, store.dedup, store.sizes)
      decreases |rest|
    {
      var id :| id in rest;
      FillStep(old(store.dedup), added, rest, store.dedup, store.sizes, id);
      if id !in store.dedup {
        var x := rest[id].record;
        store.InsertUntil(id, x.key, x.fingerprint, x.version.value, x.ownerBytes, x.deleted, rest[id].expiresAt);
      }
      rest := rest - {id};
    }
    FillEnds(old(store.dedup), added, store.dedup, store.sizes);
  }

  /** The receipts' part of `commit_destination_range`. */
  method Commit(store: Store, staging: Staging, now: nat, maxBytes: nat) returns (r: CommitOutcome)
    requires store.Valid() && staging.Valid()
    modifies store
    ensures store.Valid()
    ensures r.Done? ==> store.dedup == Committed(old(store.dedup), staging.dedup, store.sizes, now)
    ensures !r.Done? ==> store.dedup == Unexpired(old(store.dedup), now)
    ensures r.NoRoom? ==> TotalBytes(Charges(Committed(old(store.dedup), staging.dedup, store.sizes, now))) > maxBytes
    ensures r.Done? ==> store.bytes <= maxBytes
    ensures r.Clash? <==> exists id :: Clashes(Unexpired(old(store.dedup), now), UnexpiredStaged(staging.dedup, now), id)
  {
    var added := UnexpiredStaged(staging.dedup, now);
    store.Purge(now);
    var kept := store.dedup;
    var clash, bytes := WeighStaged(kept, added, store.sizes);
    if clash { return Clash; }
    if store.bytes + bytes > maxBytes { return NoRoom; }
    InsertStaged(store, added);
    return Done;
  }

  // ----- Journeys -----

  /** One migration of a receipt: when it is read at the source, staged at the destination and committed there, what the
      destination's store holds when it commits, and what it had staged before. */
  datatype Hop = Hop(readAt: nat, stagedAt: nat, committedAt: nat, store: Receipts, staged: StagedReceipts, entryBytes: nat,
                     ownerBytes: nat)

  /** What a source sends of a receipt. */
  function Sent(r: Receipt, id: MutationId, readAt: nat, ownerBytes: nat, retentionMillis: nat): Carried {
    Carried(id, r.key, r.fingerprint, Some(r.version), ownerBytes, r.deleted,
            RemainingMillis(r.expiresAt, readAt, retentionMillis))
  }

  /** What the destination has staged when it commits: an expired receipt is not sent, and one without time left is
      ignored. */
  function StagedAtCommit(src: Receipts, id: MutationId, hop: Hop, retentionMillis: nat): StagedReceipts {
    if id in src && RemainingMillis(src[id].expiresAt, hop.readAt, retentionMillis) > 0
    then StagedWith(hop.staged, Sent(src[id], id, hop.readAt, hop.ownerBytes, retentionMillis), hop.stagedAt,
                    retentionMillis, hop.entryBytes)
    else hop.staged
  }

  /** The destination's store after the hop. */
  function AfterHop(src: Receipts, id: MutationId, hop: Hop, retentionMillis: nat, sizes: Sizes): Receipts
    requires Filed(hop.staged)
  {
    Committed(hop.store, StagedAtCommit(src, id, hop, retentionMillis), sizes, hop.committedAt)
  }

  predicate InTime(hop: Hop) {
    hop.readAt <= hop.stagedAt <= hop.committedAt
  }

  lemma StagedLongEnough(src: Receipts, id: MutationId, hop: Hop, retentionMillis: nat, floor: nat)
    requires id in src && InTime(hop) && hop.committedAt < src[id].expiresAt && floor <= src[id].expiresAt
    requires retentionMillis > 0
    requires floor <= hop.stagedAt + retentionMillis * NANOS_PER_MILLI
    ensures var m := StagedAtCommit(src, id, hop, retentionMillis); id in m && m[id].expiresAt >= floor
  {
    RemainingCovers(src[id].expiresAt, hop.readAt, retentionMillis);
    RemainingIsPositive(src[id].expiresAt, hop.readAt, retentionMillis);
  }

  lemma RemainingIsPositive(expiresAt: nat, now: nat, retentionMillis: nat)
    requires now < expiresAt && retentionMillis > 0
    ensures RemainingMillis(expiresAt, now, retentionMillis) > 0
    ensures expiresAt > now + retentionMillis * NANOS_PER_MILLI ==>
      RemainingMillis(expiresAt, now, retentionMillis) == retentionMillis
  {
    RemainingCovers(expiresAt, now, retentionMillis);
    var d := expiresAt - now;
    assert DivCeil(d, NANOS_PER_MILLI) >= 1;
  }

  /** Unless the destination keeps its own receipt, a hop never shortens one; it moves an expiry earlier exactly when the
      destination already holds the id with an unexpired, earlier one. */
  lemma HopMovesEarlierOnlyToOwn(src: Receipts, id: MutationId, hop: Hop, retentionMillis: nat, sizes: Sizes)
    requires Filed(hop.staged) && InTime(hop) && id in src && retentionMillis > 0
    requires hop.committedAt < src[id].expiresAt <= hop.readAt + retentionMillis * NANOS_PER_MILLI
    ensures id in AfterHop(src, id, hop, retentionMillis, sizes)
    ensures AfterHop(src, id, hop, retentionMillis, sizes)[id].expiresAt < src[id].expiresAt
       <==> id in hop.store && hop.committedAt < hop.store[id].expiresAt < src[id].expiresAt
  {
    StagedLongEnough(src, id, hop, retentionMillis, src[id].expiresAt);
  }

  /** So an expiry can move earlier. The receipt was made at the start of a retention period of one second. Its first hop
      prolongs it by the five milliseconds between reading and staging; its second reaches a destination whose own receipt
      of the mutation was made one millisecond after the first, and keeps that. */
  lemma HopMayMoveEarlier(id: MutationId, r: Receipt, sizes: Sizes)
    requires r.expiresAt == 1_000_000_000
    ensures var first := Hop(10_000_000, 15_000_000, 16_000_000, map[], map[], 0, 0);
            var second := Hop(20_000_000, 21_000_000, 22_000_000, map[id := r.(expiresAt := 1_001_000_000)], map[], 0, 0);
            var between := AfterHop(map[id := r], id, first, 1_000, sizes);
            var after := AfterHop(between, id, second, 1_000, sizes);
            && id in between && between[id].expiresAt == 1_005_000_000
            && id in after && after[id].expiresAt == 1_001_000_000
  {
    var first := Hop(10_000_000, 15_000_000, 16_000_000, map[], map[], 0, 0);
    var second := Hop(20_000_000, 21_000_000, 22_000_000, map[id := r.(expiresAt := 1_001_000_000)], map[], 0, 0);
    assert RemainingMillis(1_000_000_000, 10_000_000, 1_000) == 990;
    HopMovesEarlierOnlyToOwn(map[id := r], id, first, 1_000, sizes);
    HopMovesEarlierOnlyToOwn(AfterHop(map[id := r], id, first, 1_000, sizes), id, second, 1_000, sizes);
  }

  /** Wherever the id is known along the way, it was made no earlier than the mutation began. */
  ghost predicate MadeSince(hop: Hop, id: MutationId, floor: nat) {
    && (id in hop.store ==> hop.store[id].expiresAt >= floor)
    && (id in hop.staged ==> hop.staged[id].expiresAt >= floor)
  }

  lemma HopOutlives(start: nat, src: Receipts, id: MutationId, hop: Hop, retentionMillis: nat, sizes: Sizes)
    requires var floor := start + retentionMillis * NANOS_PER_MILLI;
             && Filed(hop.staged) && InTime(hop) && start <= hop.readAt && hop.committedAt < floor
             && id in src && src[id].expiresAt >= floor && MadeSince(hop, id, floor)
    ensures var after := AfterHop(src, id, hop, retentionMillis, sizes);
            id in after && after[id].expiresAt >= start + retentionMillis * NANOS_PER_MILLI
  {
    StagedLongEnough(src, id, hop, retentionMillis, start + retentionMillis * NANOS_PER_MILLI);
  }

  function AfterHops(src: Receipts, id: MutationId, hops: seq<Hop>, retentionMillis: nat, sizes: Sizes): Receipts
    requires forall h :: h in hops ==> Filed(h.staged)
  {
    if hops == [] then src
    else
      assert hops[|hops| - 1] in hops;
      AfterHop(AfterHops(src, id, hops[..|hops| - 1], retentionMillis, sizes), id, hops[|hops| - 1], retentionMillis, sizes)
  }

  /** The hops follow each other in time, from `start` to `end`. */
  predicate InOrder(start: nat, hops: seq<Hop>, end: nat) {
    if hops == [] then start <= end
    else
      var last := hops[|hops| - 1];
      InOrder(start, hops[..|hops| - 1], last.readAt) && InTime(last) && last.committedAt <= end
  }

  /** Through any chain of migrations, past any receipts of its id already there, a receipt stays and expires no earlier
      than one retention period after the mutation began. */
  lemma {:induction false} JourneyOutlives(start: nat, src: Receipts, id: MutationId, hops: seq<Hop>, now: nat,
                                           retentionMillis: nat, sizes: Sizes)
    requires forall h :: h in hops ==> Filed(h.staged) && MadeSince(h, id, start + retentionMillis * NANOS_PER_MILLI)
    requires InOrder(start, hops, now) && now < start + retentionMillis * NANOS_PER_MILLI
    requires id in src && src[id].expiresAt >= start + retentionMillis * NANOS_PER_MILLI
    ensures start <= now
    ensures var after := AfterHops(src, id, hops, retentionMillis, sizes);
            id in after && after[id].expiresAt >= start + retentionMillis * NANOS_PER_MILLI
  {
    if hops != [] {
      var init, last := hops[..|hops| - 1], hops[|hops| - 1];
      assert last in hops;
      JourneyOutlives(start, src, id, init, last.readAt, retentionMillis, sizes);
      HopOutlives(start, AfterHops(src, id, init, retentionMillis, sizes), id, last, retentionMillis, sizes);
    }
  }

  /** `mutation_deadline`. */
  function MutationDeadline(start: nat, operationTimeout: nat, retentionMillis: nat): nat {
    start + Min(operationTimeout, retentionMillis * NANOS_PER_MILLI)
  }
}
