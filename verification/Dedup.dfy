/**
 Deduplication receipts. A store keeps each receipt until it expires, with an expiry heap that is cleaned lazily, a byte
 count and an index by token. Receipts travel with their ranges: a destination stages what it is sent and only prolongs
 what it has staged.
 */
module Dedup {
  import opened Ring
  import opened Topology
  import opened Records

  type MutationId = string

  const NANOS_PER_MILLI: nat := 1_000_000

  datatype RequiredAck = RequiredAck(epoch: nat, nodeBytes: nat, sequence: nat)

  datatype Receipt = Receipt(key: Key, fingerprint: string, version: Version, deleted: bool, bytes: nat, expiresAt: nat,
                             acks: seq<RequiredAck>)

  /** Sizes the store charges that depend on the platform. */
  datatype Sizes = Sizes(entry: nat, ack: nat)

  function BaseBytes(sizes: Sizes, id: MutationId, key: Key, ownerBytes: nat): nat {
    |id| + |key| + ownerBytes + sizes.entry + 32 + 64
  }

  function AckBytes(sizes: Sizes, acks: seq<RequiredAck>): nat {
    if acks == [] then 0 else AckBytes(sizes, acks[..|acks| - 1]) + 2 * sizes.ack + acks[|acks| - 1].nodeBytes + 64
  }

  // ----- Sums over maps -----

  ghost function TotalBytes(m: map<MutationId, nat>): nat {
    if m == map[] then 0 else var k :| k in m; m[k] + TotalBytes(m - {k})
  }

  lemma {:induction false} TotalWithout(m: map<MutationId, nat>, k: MutationId)
    requires k in m
    ensures TotalBytes(m) == m[k] + TotalBytes(m - {k})
    decreases |m|
  {
    var j :| j in m && TotalBytes(m) == m[j] + TotalBytes(m - {j});
    if j != k {
      TotalWithout(m - {j}, k);
      TotalWithout(m - {k}, j);
      assert m - {j} - {k} == m - {k} - {j};
    }
  }

  lemma TotalUpdated(m: map<MutationId, nat>, k: MutationId, bytes: nat)
    ensures TotalBytes(m[k := bytes]) == TotalBytes(m - {k}) + bytes
  {
    TotalWithout(m[k := bytes], k);
    assert m[k := bytes] - {k} == m - {k};
  }

  type Receipts = map<MutationId, Receipt>

  function Charges(m: Receipts): (r: map<MutationId, nat>)
    ensures r.Keys == m.Keys
  {
    map id | id in m :: m[id].bytes
  }

  lemma ChargesWithout(m: Receipts, id: MutationId)
    ensures Charges(m - {id}) == Charges(m) - {id}
    ensures id in m ==> TotalBytes(Charges(m)) == m[id].bytes + TotalBytes(Charges(m - {id}))
  {
    assert Charges(m - {id}) == Charges(m) - {id};
    if id in m {
      TotalWithout(Charges(m), id);
    }
  }

  lemma ChargesWith(m: Receipts, id: MutationId, r: Receipt)
    ensures TotalBytes(Charges(m[id := r])) == TotalBytes(Charges(m - {id})) + r.bytes
  {
    assert Charges(m[id := r]) == Charges(m)[id := r.bytes];
    assert Charges(m - {id}) == Charges(m) - {id};
    TotalUpdated(Charges(m), id, r.bytes);
  }

  // ----- The store -----

  datatype Expiry = Expiry(at: nat, id: MutationId)

  type Heap = multiset<Expiry>

  predicate IsFirst(h: Heap, x: Expiry) {
    x in h && forall y :: y in h ==> x.at <= y.at
  }

  lemma {:induction false} FirstExists(h: Heap)
    requires |h| > 0
    ensures exists x :: IsFirst(h, x)
    decreases |h|
  {
    var x :| x in h;
    var rest := h - multiset{x};
    if |rest| == 0 {
      assert h == multiset{x};
      assert IsFirst(h, x);
    } else {
      FirstExists(rest);
      var y :| IsFirst(rest, y);
      assert forall z :: z in h ==> z == x || z in rest;
      assert IsFirst(h, if x.at <= y.at then x else y);
    }
  }

  /** The receipts that outlive `now`: what a purge must leave. */
  function Unexpired(m: Receipts, now: nat): Receipts {
    map id | id in m && m[id].expiresAt > now :: m[id]
  }

  function IndexOf(m: Receipts, tok: Key -> Token): set<(Token, MutationId)> {
    set id | id in m :: (tok(m[id].key), id)
  }

  ghost predicate Charged(m: Receipts, sizes: Sizes) {
    forall id :: id in m ==> m[id].bytes >= AckBytes(sizes, m[id].acks)
  }

  ghost predicate Scheduled(m: Receipts, h: Heap) {
    forall id :: id in m ==> Expiry(m[id].expiresAt, id) in h
  }

  lemma IndexWithout(m: Receipts, id: MutationId, tok: Key -> Token)
    requires id in m
    ensures IndexOf(m - {id}, tok) == IndexOf(m, tok) - {(tok(m[id].key), id)}
  {
    var n := m - {id};
    forall x ensures x in IndexOf(n, tok) <==> x in IndexOf(m, tok) - {(tok(m[id].key), id)} {
      if x in IndexOf(m, tok) {
        var k :| k in m && x == (tok(m[k].key), k);
        assert k != id ==> k in n && n[k] == m[k];
      }
    }
  }

  lemma IndexWith(m: Receipts, id: MutationId, r: Receipt, tok: Key -> Token)
    ensures IndexOf(m[id := r], tok) == IndexOf(m - {id}, tok) + {(tok(r.key), id)}
  {
    var n := m[id := r];
    forall x ensures x in IndexOf(n, tok) <==> x in IndexOf(m - {id}, tok) + {(tok(r.key), id)} {
      assert x == (tok(r.key), id) ==> id in n && x == (tok(n[id].key), id);
      if x in IndexOf(m - {id}, tok) {
        var k :| k in m - {id} && x == (tok((m - {id})[k].key), k);
        assert k in n && n[k] == m[k];
      }
      if x in IndexOf(n, tok) {
        var k :| k in n && x == (tok(n[k].key), k);
        assert k != id ==> k in m - {id} && (m - {id})[k] == n[k];
      }
    }
  }

  /** What is retained, with its derived parts. */
  ghost predicate Kept(m: Receipts, h: Heap, index: set<(Token, MutationId)>, bytes: nat, tok: Key -> Token, sizes: Sizes) {
    bytes == TotalBytes(Charges(m)) && index == IndexOf(m, tok) && Scheduled(m, h) && Charged(m, sizes)
  }

  lemma RemoveKeeps(m: Receipts, h: Heap, index: set<(Token, MutationId)>, bytes: nat, tok: Key -> Token, sizes: Sizes,
                    id: MutationId)
    requires Kept(m, h, index, bytes, tok, sizes) && id in m
    ensures m[id].bytes <= bytes
    ensures Kept(m - {id}, h, index - {(tok(m[id].key), id)}, bytes - m[id].bytes, tok, sizes)
  {
    ChargesWithout(m, id);
    IndexWithout(m, id, tok);
  }

  lemma {:induction false} InsertKeeps(m: Receipts, h: Heap, index: set<(Token, MutationId)>, bytes: nat,
                                       tok: Key -> Token, sizes: Sizes, id: MutationId, r: Receipt)
    requires Kept(m, h, index, bytes, tok, sizes) && id !in m && r.bytes >= AckBytes(sizes, r.acks)
    ensures Kept(m[id := r], h + multiset{Expiry(r.expiresAt, id)}, index + {(tok(r.key), id)}, bytes + r.bytes, tok, sizes)
  {
    assert m - {id} == m;
    ChargesWith(m, id, r);
    IndexWith(m, id, r, tok);
  }

  lemma {:induction false} RechargeKeeps(m: Receipts, h: Heap, index: set<(Token, MutationId)>, bytes: nat,
                                         tok: Key -> Token, sizes: Sizes, id: MutationId, r: Receipt, after: int)
    requires Kept(m, h, index, bytes, tok, sizes) && id in m && r.bytes >= AckBytes(sizes, r.acks)
    requires r.key == m[id].key && r.expiresAt == m[id].expiresAt && after == bytes - m[id].bytes + r.bytes
    ensures after >= 0 && Kept(m[id := r], h, index, after, tok, sizes)
  {
    ChargesWithout(m, id);
    ChargesWith(m, id, r);
    SameIndex(m, id, r, tok);
  }

  /** A receipt that awaits acknowledgements and is charged for them. */
  function Awaiting(r: Receipt, acks: seq<RequiredAck>, cost: nat): Receipt {
    r.(acks := acks, bytes := r.bytes + cost)
  }

  /** A purge in progress has only removed expired receipts and expired heap items. */
  ghost predicate Purging(m0: Receipts, m: Receipts, h0: Heap, h: Heap, now: nat) {
    && (forall id :: id in m ==> id in m0 && m[id] == m0[id])
    && (forall id :: id in m0 && m0[id].expiresAt > now ==> id in m)
    && (forall x :: x in h ==> x in h0)
    && (forall x :: x in h0 && x.at > now ==> x in h)
  }

  lemma PurgeEnds(m0: Receipts, m: Receipts, h0: Heap, h: Heap, now: nat)
    requires Purging(m0, m, h0, h, now) && Scheduled(m, h) && forall x :: x in h ==> x.at > now
    ensures m == Unexpired(m0, now)
    ensures forall x :: x in h <==> x in h0 && x.at > now
  {
    assert forall id :: id in m ==> Expiry(m[id].expiresAt, id) in h;
  }

  /** Popping an expired item leaves every receipt scheduled that it does not concern. */
  lemma PopKeeps(m: Receipts, h: Heap, index: set<(Token, MutationId)>, bytes: nat, tok: Key -> Token, sizes: Sizes,
                 x: Expiry)
    requires Kept(m, h, index, bytes, tok, sizes) && x in h && (x.id in m ==> m[x.id].expiresAt > x.at)
    ensures Kept(m, h - multiset{x}, index, bytes, tok, sizes)
  {
  }

  lemma ReplaceIsUpdate(m: Receipts, id: MutationId, r: Receipt)
    ensures (m - {id})[id := r] == m[id := r] && (id !in m ==> m - {id} == m)
  {
  }

  class Store {
    const tok: Key -> Token
    const sizes: Sizes
    var dedup: Receipts
    var heap: Heap
    var index: set<(Token, MutationId)>
    var bytes: nat

    constructor (tok: Key -> Token, sizes: Sizes)
      ensures Valid() && dedup == map[]
    {
      this.tok, this.sizes := tok, sizes;
      dedup, heap, index, bytes := map[], multiset{}, {}, 0;
    }

    /** The byte count is the sum of what is retained, the index mirrors the receipts, each receipt has its place in the
        heap, and what its acknowledgements will release is charged to it. */
    ghost predicate Valid()
      reads this
    {
      Kept(dedup, heap, index, bytes, tok, sizes)
    }

    /** `insert_dedup_until`. */
    method InsertUntil(id: MutationId, key: Key, fingerprint: string, version: Version, ownerBytes: nat, deleted: bool,
                       expiresAt: nat)
      requires Valid()
      modifies this
      ensures Valid()
      ensures dedup == old(dedup)[id := Receipt(key, fingerprint, version, deleted, BaseBytes(sizes, id, key, ownerBytes),
                                                expiresAt, [])]
    {
      var receipt := Receipt(key, fingerprint, version, deleted, BaseBytes(sizes, id, key, ownerBytes), expiresAt, []);
      ghost var rest := dedup - {id};
      ReplaceIsUpdate(dedup, id, receipt);
      if id in dedup {
        RemoveKeeps(dedup, heap, index, bytes, tok, sizes, id);
        index := index - {(tok(dedup[id].key), id)};
        bytes := bytes - dedup[id].bytes;
      }
      InsertKeeps(rest, heap, index, bytes, tok, sizes, id, receipt);
      heap := heap + multiset{Expiry(expiresAt, id)};
      dedup := dedup[id := receipt];
      index := index + {(tok(key), id)};
      bytes := bytes + receipt.bytes;
    }

    /** `insert_dedup`: a receipt lives for the retention period from the moment it is made. */
    method Insert(id: MutationId, key: Key, fingerprint: string, version: Version, ownerBytes: nat, deleted: bool, now: nat,
                  retentionMillis: nat)
      requires Valid()
      modifies this
      ensures Valid()
      ensures dedup == old(dedup)[id := Receipt(key, fingerprint, version, deleted, BaseBytes(sizes, id, key, ownerBytes),
                                                now + retentionMillis * NANOS_PER_MILLI, [])]
    {
      InsertUntil(id, key, fingerprint, version, ownerBytes, deleted, now + retentionMillis * NANOS_PER_MILLI);
    }

    /** What a write charges its fresh receipt for the acknowledgements it awaits. */
    method ChargeAcks(id: MutationId, acks: seq<RequiredAck>)
      requires Valid() && id in dedup && dedup[id].acks == []
      modifies this`dedup, this`bytes
      ensures Valid()
      ensures dedup == old(dedup)[id := Awaiting(old(dedup)[id], acks, AckBytes(sizes, acks))]
    {
      var cost := AckBytes(sizes, acks);
      var charged := Awaiting(dedup[id], acks, cost);
      RechargeKeeps(dedup, heap, index, bytes, tok, sizes, id, charged, bytes + cost);
      dedup, bytes := dedup[id := charged], bytes + cost;
    }

    /** `complete_required_acks`: releases exactly what was charged, once, and only for the same mutation. */
    method CompleteRequiredAcks(id: MutationId, version: Version)
      requires Valid()
      modifies this
      ensures Valid() && heap == old(heap)
      ensures dedup == if id in old(dedup) && old(dedup)[id].version == version
        then old(dedup)[id := old(dedup)[id].(acks := [],
                                              bytes := old(dedup)[id].bytes - AckBytes(sizes, old(dedup)[id].acks))]
        else old(dedup)
    {
      if id !in dedup { return; }
      if dedup[id].version != version || dedup[id].acks == [] { return; }
      var released := AckBytes(sizes, dedup[id].acks);
      var settled := dedup[id].(acks := [], bytes := dedup[id].bytes - released);
      RechargeKeeps(dedup, heap, index, bytes, tok, sizes, id, settled, bytes - released);
      dedup := dedup[id := settled];
      bytes := bytes - released;
    }

    /** One popped heap item: it takes its receipt along only if that has expired. */
    method Expire(first: Expiry, now: nat)
      requires Valid() && first in heap && first.at <= now
      modifies this
      ensures Valid() && heap == old(heap) - multiset{first}
      ensures dedup == if first.id in old(dedup) && old(dedup)[first.id].expiresAt <= now
        then old(dedup) - {first.id} else old(dedup)
    {
      if first.id in dedup && dedup[first.id].expiresAt <= now {
        RemoveKeeps(dedup, heap, index, bytes, tok, sizes, first.id);
        PopKeeps(dedup - {first.id}, heap, index - {(tok(dedup[first.id].key), first.id)}, bytes - dedup[first.id].bytes,
                 tok, sizes, first);
        index := index - {(tok(dedup[first.id].key), first.id)};
        bytes := bytes - dedup[first.id].bytes;
        dedup := dedup - {first.id};
      } else {
        PopKeeps(dedup, heap, index, bytes, tok, sizes, first);
      }
      heap := heap - multiset{first};
    }

    /** `purge_expired_dedup`: exactly the receipts that expire later than `now` remain, whatever stale items
        replacements have left in the heap. */
    method Purge(now: nat)
      requires Valid()
      modifies this
      ensures Valid() && dedup == Unexpired(old(dedup), now)
      ensures forall x :: x in heap <==> x in old(heap) && x.at > now
    {
      while |heap| > 0
        invariant Valid() && Purging(old(dedup), dedup, old(heap), heap, now)
        decreases |heap|
      {
        FirstExists(heap);
        var first :| IsFirst(heap, first);
        if first.at > now { break; }
        Expire(first, now);
      }
      PurgeEnds(old(dedup), dedup, old(heap), heap, now);
    }
  }

  lemma SameIndex(m: Receipts, id: MutationId, r: Receipt, tok: Key -> Token)
    requires id in m && r.key == m[id].key
    ensures IndexOf(m[id := r], tok) == IndexOf(m, tok)
  {
    var n := m[id := r];
    assert forall k :: k in m ==> (k in n && n[k].key == m[k].key);
  }

  // ----- Staged receipts -----

  datatype Carried = Carried(id: MutationId, key: Key, fingerprint: string, version: Option<Version>, ownerBytes: nat,
                             deleted: bool, remainingMillis: nat)

  datatype StagedReceipt = StagedReceipt(record: Carried, expiresAt: nat, bytes: nat)

  const MAX_MUTATION_ID_BYTES: nat := 128

  datatype StageOutcome = Staged | Ignored | Invalid | Conflict | Full

  function StagedCharges(m: map<MutationId, StagedReceipt>): map<MutationId, nat> {
    map id | id in m :: m[id].bytes
  }

  type StagedReceipts = map<MutationId, StagedReceipt>

  predicate Malformed(r: Carried) {
    r.id == "" || |r.id| > MAX_MUTATION_ID_BYTES || |r.fingerprint| != 32 || r.version.None?
  }

  function StageCost(r: Carried, entryBytes: nat): nat {
    2 * |r.id| + |r.key| + r.ownerBytes + 32 + entryBytes + 64
  }

  /** The staged receipts with one more: it lives for what it has left, and one already there is only prolonged. */
  function StagedWith(m: StagedReceipts, r: Carried, now: nat, retentionMillis: nat, entryBytes: nat): StagedReceipts {
    var until := now + Min(r.remainingMillis, retentionMillis) * NANOS_PER_MILLI;
    if r.id in m then m[r.id := m[r.id].(expiresAt := Max(m[r.id].expiresAt, until))]
    else m[r.id := StagedReceipt(r, until, StageCost(r, entryBytes))]
  }

  /** Staged receipts are filed under their own id and name a version. */
  ghost predicate Filed(m: StagedReceipts) {
    forall id :: id in m ==> m[id].record.id == id && m[id].record.version.Some?
  }

  predicate SameMutation(a: Carried, b: Carried) {
    a.key == b.key && a.fingerprint == b.fingerprint && a.version == b.version && a.deleted == b.deleted
  }

  class Staging {
    const entryBytes: nat
    var dedup: map<MutationId, StagedReceipt>
    var bytes: nat

    constructor (entryBytes: nat)
      ensures Valid() && dedup == map[]
    {
      this.entryBytes := entryBytes;
      dedup, bytes := map[], 0;
    }

    ghost predicate Valid()
      reads this
    {
      bytes == TotalBytes(StagedCharges(dedup)) && Filed(dedup)
    }

    /** `stage_dedup`: a receipt that still has time left is held at least that long; one already staged for the same
        mutation is only ever prolonged, and a different mutation under its id is refused. */
    method Stage(record: Carried, now: nat, maxBytes: nat, retentionMillis: nat) returns (r: StageOutcome)
      requires Valid()
      modifies this
      ensures Valid()
      ensures r.Ignored? <==> record.remainingMillis == 0
      ensures !r.Staged? ==> dedup == old(dedup) && bytes == old(bytes)
      ensures r.Invalid? <==> record.remainingMillis > 0 && Malformed(record)
      ensures r.Staged? || r.Conflict? || r.Full? ==>
        1 <= |record.id| <= MAX_MUTATION_ID_BYTES && |record.fingerprint| == 32 && record.version.Some?
      ensures r.Invalid? ==>
        record.id == "" || |record.id| > MAX_MUTATION_ID_BYTES || |record.fingerprint| != 32 || record.version.None?
      ensures r.Conflict? <==> && record.remainingMillis > 0 && !Malformed(record)
                               && record.id in old(dedup) && !SameMutation(old(dedup)[record.id].record, record)
      ensures r.Full? <==> && record.remainingMillis > 0 && !Malformed(record) && record.id !in old(dedup)
                           && old(bytes) + StageCost(record, entryBytes) > maxBytes
      ensures r.Staged? ==> && dedup == StagedWith(old(dedup), record, now, retentionMillis, entryBytes)
                            && SameMutation(dedup[record.id].record, record)
      ensures r.Staged? ==> var x := dedup[record.id].record; x.key == record.key && x.fingerprint == record.fingerprint
                                                              && x.version == record.version && x.deleted == record.deleted
      ensures bytes <= Max(old(bytes), maxBytes)
    {
      if record.remainingMillis == 0 { return Ignored; }
      if Malformed(record) { return Invalid; }
      var until := now + Min(record.remainingMillis, retentionMillis) * NANOS_PER_MILLI;
      if record.id in dedup {
        var existing := dedup[record.id];
        if !SameMutation(existing.record, record) { return Conflict; }
        var prolonged := dedup[record.id := existing.(expiresAt := Max(existing.expiresAt, until))];
        assert StagedCharges(prolonged) == StagedCharges(dedup);
        dedup := prolonged;
        return Staged;
      }
      var cost := StageCost(record, entryBytes);
      if bytes + cost > maxBytes { return Full; }
      StageAdds(dedup, record.id, StagedReceipt(record, until, cost));
      bytes, dedup := bytes + cost, dedup[record.id := StagedReceipt(record, until, cost)];
      return Staged;
    }

    /** `purge_staged_dedup`: exactly the unexpired stay, and their bytes are counted afresh. */
    method Purge(now: nat)
      requires Valid()
      modifies this
      ensures Valid()
      ensures dedup == map id | id in old(dedup) && old(dedup)[id].expiresAt > now :: old(dedup)[id]
    {
      dedup := map id | id in dedup && dedup[id].expiresAt > now :: dedup[id];
      bytes := 0;
      var rest := StagedCharges(dedup);
      ghost var kept := dedup;
      while rest != map[]
        invariant dedup == kept && bytes + TotalBytes(rest) == TotalBytes(StagedCharges(kept))
        decreases |rest|
      {
        var id :| id in rest;
        TotalWithout(rest, id);
        bytes, rest := bytes + rest[id], rest - {id};
      }
    }
  }

  lemma StageAdds(m: map<MutationId, StagedReceipt>, id: MutationId, r: StagedReceipt)
    requires id !in m
    ensures TotalBytes(StagedCharges(m[id := r])) == TotalBytes(StagedCharges(m)) + r.bytes
  {
    assert StagedCharges(m[id := r]) == StagedCharges(m)[id := r.bytes];
    assert StagedCharges(m) - {id} == StagedCharges(m);
    TotalUpdated(StagedCharges(m), id, r.bytes);
  }
}
