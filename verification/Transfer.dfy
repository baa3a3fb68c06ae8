/**
 Moving one range between nodes. The source lists its keys, journals every later write, and serves both in pages; the
 coordinator carries pages to the destination, late, repeated or cut short by a failure. When the snapshot is through
 and the journal is applied to its end, the destination holds exactly what the source holds.
 */
module Transfer {
  import opened Topology
  import opened Records
  import opened Runs

  // ----- Records on the wire -----

  datatype Wire = Wire(key: Key, value: string, version: Option<Version>, deleted: bool, expiresAt: Option<nat>)

  datatype Entry = Entry(watermark: nat, wire: Wire)

  function ToWire(x: Item): Wire {
    Wire(x.key, x.record.value, Some(x.record.version), x.record.deleted, x.record.expiresAt)
  }

  /** What `apply_record` makes of a received record: nothing when it is malformed. A deadline of zero is none. */
  function Received(w: Wire): Option<Record> {
    if w.version.None? || (w.deleted && w.value != "") then None
    else Some(Record(w.value, w.version.value, w.deleted, if w.expiresAt == Some(0) then None else w.expiresAt))
  }

  /** Records a node stores: tombstones hold no value, and a stored deadline is never zero. */
  predicate Storable(r: Record) {
    (r.deleted ==> r.value == "") && r.expiresAt != Some(0)
  }

  /** A record survives the wire unchanged exactly if a node may store it. */
  lemma WireRoundTrip(x: Item)
    ensures Received(ToWire(x)) == Some(x.record) <==> Storable(x.record)
  {
  }

  // ----- The destination -----

  datatype Staged = Staged(records: Store, watermark: nat)

  /** Whether the destination takes a record: its key is in the range and its receipt can be staged. */
  type Accepts = Wire -> bool

  function TakeRecord(records: Store, w: Wire, accepts: Accepts): Option<Store> {
    if !accepts(w) || Received(w).None? then None else Some(Apply(records, Item(w.key, Received(w).value)))
  }

  /** Snapshot records of a batch, up to the first that is refused. */
  function TakeSnapshot(d: Staged, wires: seq<Wire>, accepts: Accepts): (Staged, bool) {
    if wires == [] then (d, true)
    else
      var (e, ok) := TakeSnapshot(d, wires[..|wires| - 1], accepts);
      var taken := TakeRecord(e.records, wires[|wires| - 1], accepts);
      if !ok || taken.None? then (e, false) else (e.(records := taken.value), true)
  }

  function TakeEntry(d: Staged, entry: Entry, accepts: Accepts): Option<Staged> {
    if entry.watermark <= d.watermark then Some(d)
    else if entry.watermark != d.watermark + 1 then None
    else
      var taken := TakeRecord(d.records, entry.wire, accepts);
      if taken.None? then None else Some(Staged(taken.value, entry.watermark))
  }

  /** Journal entries of a batch: known ones are skipped, a gap or a refusal ends it. */
  function TakeJournal(d: Staged, entries: seq<Entry>, accepts: Accepts): (Staged, bool) {
    if entries == [] then (d, true)
    else
      var (e, ok) := TakeJournal(d, entries[..|entries| - 1], accepts);
      var taken := TakeEntry(e, entries[|entries| - 1], accepts);
      if !ok || taken.None? then (e, false) else (taken.value, true)
  }

  function TakeBatch(d: Staged, wires: seq<Wire>, entries: seq<Entry>, accepts: Accepts): (Staged, bool) {
    var (e, ok) := TakeSnapshot(d, wires, accepts);
    if ok then TakeJournal(e, entries, accepts) else (e, false)
  }

  lemma {:induction false} StopsAtFailure(d: Staged, entries: seq<Entry>, i: nat, accepts: Accepts)
    requires i <= |entries| && !TakeJournal(d, entries[..i], accepts).1
    ensures TakeJournal(d, entries, accepts) == (TakeJournal(d, entries[..i], accepts).0, false)
    decreases |entries|
  {
    if i < |entries| {
      assert entries[..|entries| - 1][..i] == entries[..i];
      StopsAtFailure(d, entries[..|entries| - 1], i, accepts);
    } else {
      assert entries[..i] == entries;
    }
  }

  lemma {:induction false} SnapshotStopsAtFailure(d: Staged, wires: seq<Wire>, i: nat, accepts: Accepts)
    requires i <= |wires| && !TakeSnapshot(d, wires[..i], accepts).1
    ensures TakeSnapshot(d, wires, accepts) == (TakeSnapshot(d, wires[..i], accepts).0, false)
    decreases |wires|
  {
    if i < |wires| {
      assert wires[..|wires| - 1][..i] == wires[..i];
      SnapshotStopsAtFailure(d, wires[..|wires| - 1], i, accepts);
    } else {
      assert wires[..i] == wires;
    }
  }

  class Destination {
    var records: Store
    var watermark: nat
    var committed: bool

    constructor ()
      ensures Now() == Staged(map[], 0) && !committed
    {
      records, watermark, committed := map[], 0, false;
    }

    function Now(): Staged
      reads this
    {
      Staged(records, watermark)
    }

    method ApplySnapshot(wires: seq<Wire>, accepts: Accepts) returns (ok: bool)
      modifies this
      ensures (Now(), ok) == TakeSnapshot(old(Now()), wires, accepts) && committed == old(committed)
    {
      for i := 0 to |wires|
        invariant (Now(), true) == TakeSnapshot(old(Now()), wires[..i], accepts) && committed == old(committed)
      {
        assert wires[..i + 1][..i] == wires[..i];
        var wire := wires[i];
        if !accepts(wire) || Received(wire).None? {
          SnapshotStopsAtFailure(old(Now()), wires, i + 1, accepts);
          return false;
        }
        records := Apply(records, Item(wire.key, Received(wire).value));
      }
      assert wires[..|wires|] == wires;
      return true;
    }

    method ApplyJournal(entries: seq<Entry>, accepts: Accepts) returns (ok: bool)
      modifies this
      ensures (Now(), ok) == TakeJournal(old(Now()), entries, accepts) && committed == old(committed)
    {
      for i := 0 to |entries|
        invariant (Now(), true) == TakeJournal(old(Now()), entries[..i], accepts) && committed == old(committed)
      {
        assert entries[..i + 1][..i] == entries[..i];
        var entry := entries[i];
        if entry.watermark > watermark {
          if entry.watermark != watermark + 1 || !accepts(entry.wire) || Received(entry.wire).None? {
            StopsAtFailure(old(Now()), entries, i + 1, accepts);
            return false;
          }
          records := Apply(records, Item(entry.wire.key, Received(entry.wire).value));
          watermark := entry.watermark;
        }
      }
      assert entries[..|entries|] == entries;
      return true;
    }

    /** `apply_migration_batch`. */
    method ApplyBatch(wires: seq<Wire>, entries: seq<Entry>, accepts: Accepts) returns (ok: bool)
      modifies this
      ensures committed == old(committed)
      ensures committed ==> !ok && Now() == old(Now())
      ensures !committed ==> (Now(), ok) == TakeBatch(old(Now()), wires, entries, accepts)
    {
      if committed { return false; }
      ok := ApplySnapshot(wires, accepts);
      if ok { ok := ApplyJournal(entries, accepts); }
    }
  }

  // ----- The source's journal -----

  /** Journal positions i to j as entries: the entry at position x carries watermark x + 1. */
  function Entries(journal: seq<Item>, i: nat, j: nat): (r: seq<Entry>)
    requires i <= j <= |journal|
    ensures |r| == j - i
  {
    seq(j - i, x requires 0 <= x < j - i => Entry(i + x + 1, ToWire(journal[i + x])))
  }

  function EntryBytes(x: Item, mutationIdBytes: nat): nat {
    |x.key| + |x.record.value| + mutationIdBytes + 128 + 16
  }

  function PageBytes(journal: seq<Item>, i: nat, j: nat, idBytes: Item -> nat): nat
    requires i <= j <= |journal|
  {
    if i == j then 0 else PageBytes(journal, i, j - 1, idBytes) + EntryBytes(journal[j - 1], idBytes(journal[j - 1]))
  }

  /** `read_changelog_page`: the longest run of entries after a watermark that fits, and at least one if there is any. */
  method ReadChangelogPage(journal: seq<Item>, after: nat, maxBytes: nat, idBytes: Item -> nat) returns (next: nat)
    ensures after >= |journal| ==> next == after
    ensures after < |journal| ==> after < next <= |journal|
    ensures next - after > 1 ==> PageBytes(journal, after, next, idBytes) <= maxBytes
    ensures next < |journal| ==> PageBytes(journal, after, next + 1, idBytes) > maxBytes
  {
    next := after;
    var bytes := 0;
    while next < |journal|
      invariant after <= next && (after >= |journal| ==> next == after)
      invariant after < |journal| ==> next <= |journal| && bytes == PageBytes(journal, after, next, idBytes)
      invariant next - after > 1 ==> bytes <= maxBytes
    {
      var size := EntryBytes(journal[next], idBytes(journal[next]));
      if next > after && bytes + size > maxBytes { break; }
      bytes := bytes + size;
      next := next + 1;
    }
  }

  lemma {:induction false} JournalAppend(d: Staged, a: seq<Entry>, b: seq<Entry>, accepts: Accepts)
    requires TakeJournal(d, a, accepts).1
    ensures TakeJournal(d, a + b, accepts) == TakeJournal(TakeJournal(d, a, accepts).0, b, accepts)
  {
    if b == [] {
      assert a + b == a;
    } else {
      JournalAppend(d, a, b[..|b| - 1], accepts);
      assert (a + b)[..|a + b| - 1] == a + b[..|b| - 1];
    }
  }

  /** Applying one more page is applying the longer stretch, and a page refused is the whole journal refused. */
  lemma {:induction false} PageContinues(d: Staged, journal: seq<Item>, i: nat, j: nat, k: nat, accepts: Accepts)
    requires i <= j <= k <= |journal| && TakeJournal(d, Entries(journal, i, j), accepts).1
    ensures TakeJournal(d, Entries(journal, i, k), accepts)
         == TakeJournal(TakeJournal(d, Entries(journal, i, j), accepts).0, Entries(journal, j, k), accepts)
    ensures !TakeJournal(d, Entries(journal, i, k), accepts).1 ==> !TakeJournal(d, Entries(journal, i, |journal|), accepts).1
  {
    assert Entries(journal, i, j) + Entries(journal, j, k) == Entries(journal, i, k);
    JournalAppend(d, Entries(journal, i, j), Entries(journal, j, k), accepts);
    if !TakeJournal(d, Entries(journal, i, k), accepts).1 { FailsToTheEnd(d, journal, i, k, accepts); }
  }

  lemma {:induction false} FailsToTheEnd(d: Staged, journal: seq<Item>, i: nat, k: nat, accepts: Accepts)
    requires i <= k <= |journal| && !TakeJournal(d, Entries(journal, i, k), accepts).1
    ensures !TakeJournal(d, Entries(journal, i, |journal|), accepts).1
  {
    assert Entries(journal, i, |journal|)[..k - i] == Entries(journal, i, k);
    StopsAtFailure(d, Entries(journal, i, |journal|), k - i, accepts);
  }

  datatype ReplayError = Refused | DataLoss

  /** `replay_changelog` against a paused source, whose journal stands still. It terminates; it succeeds only with every
      entry up to the target applied; and it reports data loss exactly when the target lies beyond the journal. */
  method ReplayChangelog(journal: seq<Item>, destination: Destination, from: nat, final: Option<nat>, maxBytes: nat,
                         idBytes: Item -> nat, accepts: Accepts)
    returns (r: Result<nat, ReplayError>)
    requires !destination.committed
    modifies destination
    ensures !destination.committed
    ensures from > |journal| ==> && destination.Now() == old(destination.Now())
                                 && r == if final.Some? && final.value > from then Err(DataLoss) else Ok(from)
    ensures from <= |journal| && r.Ok? ==>
      && from <= r.value <= |journal| && r.value >= (if final.Some? then final.value else |journal|)
      && (destination.Now(), true) == TakeJournal(old(destination.Now()), Entries(journal, from, r.value), accepts)
    ensures from <= |journal| && r == Err(DataLoss) ==>
      && final.Some? && final.value > |journal|
      && (destination.Now(), true) == TakeJournal(old(destination.Now()), Entries(journal, from, |journal|), accepts)
    ensures from <= |journal| && r == Err(Refused) ==>
      !TakeJournal(old(destination.Now()), Entries(journal, from, |journal|), accepts).1
  {
    var watermark := from;
    var target := if final.Some? then final.value else |journal|;
    ghost var start := destination.Now();
    while true
      invariant from <= watermark && !destination.committed
      invariant from > |journal| ==> watermark == from && destination.Now() == start
      invariant from <= |journal| ==>
        watermark <= |journal| && (destination.Now(), true) == TakeJournal(start, Entries(journal, from, watermark), accepts)
      decreases |journal| - watermark
    {
      var next := ReadChangelogPage(journal, watermark, maxBytes, idBytes);
      if next > watermark {
        var page := Entries(journal, watermark, next);
        var ok := destination.ApplyBatch([], page, accepts);
        PageContinues(start, journal, from, watermark, next, accepts);
        if !ok { return Err(Refused); }
        watermark := next;
      } else if watermark < target {
        return Err(DataLoss);
      }
      if watermark >= target { return Ok(watermark); }
    }
  }

  lemma {:induction false} EntriesGrow(d: Staged, journal: seq<Item>, i: nat, j: nat, accepts: Accepts)
    requires i < j <= |journal|
    ensures var (e, ok) := TakeJournal(d, Entries(journal, i, j - 1), accepts);
            var taken := TakeEntry(e, Entry(j, ToWire(journal[j - 1])), accepts);
            TakeJournal(d, Entries(journal, i, j), accepts) == if ok && taken.Some? then (taken.value, true) else (e, false)
  {
    assert Entries(journal, i, j)[..j - 1 - i] == Entries(journal, i, j - 1);
  }

  /** What the destination holds behind the first j entries. */
  function MergedTo(d: Staged, journal: seq<Item>, j: nat): Staged
    requires j <= |journal|
  {
    if j <= d.watermark then d else Staged(Merge(d.records, journal[d.watermark..j]), j)
  }

  lemma EntryMerges(d: Staged, journal: seq<Item>, j: nat, accepts: Accepts)
    requires 0 < j <= |journal| && Storable(journal[j - 1].record) && accepts(ToWire(journal[j - 1]))
    ensures TakeEntry(MergedTo(d, journal, j - 1), Entry(j, ToWire(journal[j - 1])), accepts) == Some(MergedTo(d, journal, j))
  {
    WireRoundTrip(journal[j - 1]);
    if d.watermark < j {
      assert journal[d.watermark..j][..j - 1 - d.watermark] == journal[d.watermark..j - 1];
    }
  }

  /** Entries that reach back to the destination's watermark leave exactly the merge of those it had not seen. */
  lemma {:induction false} EntriesMerge(d: Staged, journal: seq<Item>, i: nat, j: nat, accepts: Accepts)
    requires i <= d.watermark <= |journal| && i <= j <= |journal|
    requires forall x :: x in journal ==> Storable(x.record) && accepts(ToWire(x))
    ensures TakeJournal(d, Entries(journal, i, j), accepts)
         == (MergedTo(d, journal, j), true)
  {
    if i < j {
      EntriesMerge(d, journal, i, j - 1, accepts);
      EntriesGrow(d, journal, i, j, accepts);
      assert journal[j - 1] in journal;
      EntryMerges(d, journal, j, accepts);
    }
  }

  // ----- Runs -----

  /** The source of one range: what it held when prepared, the keys it listed then, and the journal since. */
  datatype Source = Source(base: Store, keys: seq<Key>, journal: seq<Item>, records: Store, node: nat, epoch: nat,
                           sequence: nat, paused: bool)

  /** A snapshot page: the records then held for the listed keys from start to next. */
  datatype Page = Page(start: nat, next: nat, items: seq<Item>)

  /** `pages` are all ever read; `cursor` is where the coordinator's copy loop stands. */
  datatype World = World(source: Source, staged: Staged, pages: set<Page>, cursor: nat)

  /** Whether a version is one the source may have seen: below its next. */
  predicate Seen(s: Source, v: Version) {
    v.epoch < s.epoch || (v.epoch == s.epoch && v.sequence <= s.sequence)
  }

  ghost predicate Prepared(w: World) {
    && w.source.journal == [] && w.source.records == w.source.base && !w.source.paused
    && (forall k :: k in w.source.base <==> k in w.source.keys)
    && (forall k :: k in w.source.base ==> Storable(w.source.base[k]) && Seen(w.source, w.source.base[k].version))
    && w.staged == Staged(map[], 0) && w.pages == {} && w.cursor == 0
  }

  datatype Event =
    | Write(key: Key, value: string, deleted: bool, expiresAt: Option<nat>)
    | AdoptEpoch(epoch: nat)
    | Pause
    | ReadPage(start: nat, next: nat)
    | DeliverPage(page: Page, accepts: Accepts)
    | DeliverJournal(i: nat, j: nat, accepts: Accepts)

  function NextVersion(s: Source): Version {
    Version(s.epoch, s.sequence + 1, s.node)
  }

  function Wires(items: seq<Item>): (r: seq<Wire>)
    ensures |r| == |items|
  {
    seq(|items|, i requires 0 <= i < |items| => ToWire(items[i]))
  }

  predicate Listed(s: Source, start: nat, next: nat) {
    start <= next <= |s.keys| && forall i :: start <= i < next ==> s.keys[i] in s.records
  }

  /** The page as it is read now. */
  function PageOf(s: Source, start: nat, next: nat): (p: Page)
    requires Listed(s, start, next)
    ensures p.start == start && p.next == next && |p.items| == next - start
    ensures forall i :: 0 <= i < next - start ==> p.items[i] == Item(s.keys[start + i], s.records[s.keys[start + i]])
  {
    Page(start, next, seq(next - start, i requires 0 <= i < next - start =>
      Item(s.keys[start + i], s.records[s.keys[start + i]])))
  }

  predicate Enabled(w: World, e: Event) {
    match e
    case Write(_, value, deleted, expiresAt) =>
      !w.source.paused && Storable(Record(value, NextVersion(w.source), deleted, expiresAt))
    case AdoptEpoch(epoch) => epoch >= w.source.epoch
    case Pause => true
    case ReadPage(start, next) => Listed(w.source, start, next)
    case DeliverPage(page, _) => page in w.pages
    case DeliverJournal(i, j, _) => i <= j <= |w.source.journal|
  }

  function Next(w: World, e: Event): World
    requires Enabled(w, e)
  {
    match e
    case Write(key, value, deleted, expiresAt) =>
      var item := Item(key, Record(value, NextVersion(w.source), deleted, expiresAt));
      w.(source := w.source.(records := w.source.records[key := item.record], journal := w.source.journal + [item],
                             sequence := w.source.sequence + 1))
    case AdoptEpoch(epoch) => w.(source := w.source.(epoch := epoch))
    case Pause => w.(source := w.source.(paused := true))
    case ReadPage(start, next) => w.(pages := w.pages + {PageOf(w.source, start, next)})
    case DeliverPage(page, accepts) =>
      var (staged, ok) := TakeSnapshot(w.staged, Wires(page.items), accepts);
      w.(staged := staged, cursor := if ok && page.start <= w.cursor < page.next then page.next else w.cursor)
    case DeliverJournal(i, j, accepts) =>
      w.(staged := TakeJournal(w.staged, Entries(w.source.journal, i, j), accepts).0)
  }

  ghost predicate StepAt(run: seq<World>, i: nat)
    requires i + 1 < |run|
  {
    exists e :: Enabled(run[i], e) && run[i + 1] == Next(run[i], e)
  }

  ghost predicate IsRun(run: seq<World>) {
    && |run| > 0 && Prepared(run[0])
    && forall i :: 0 <= i && i + 1 < |run| ==> StepAt(run, i)
  }

  // ----- The source -----

  /** Journal versions rise, above everything held before, and the records are the base merged with the journal. */
  ghost predicate SourceSound(s: Source) {
    && (forall i, j :: 0 <= i < j < |s.journal| ==> Newer(s.journal[j].record.version, s.journal[i].record.version))
    && (forall k, i :: k in s.base && 0 <= i < |s.journal| ==> Newer(s.journal[i].record.version, s.base[k].version))
    && (forall x :: Offered(s.base, s.journal, x) ==> Storable(x.record) && Seen(s, x.record.version))
    && (forall k :: k in s.base <==> k in s.keys)
    && s.records == Merge(s.base, s.journal)
  }

  /** Everything staged and everything read came from the source. */
  ghost predicate Known(s: Source, store: Store) {
    forall k :: k in store ==> Offered(s.base, s.journal, Item(k, store[k]))
  }

  ghost predicate PageSound(s: Source, p: Page) {
    && p.start <= p.next <= |s.keys| && |p.items| == p.next - p.start
    && forall i :: 0 <= i < |p.items| ==> p.items[i].key == s.keys[p.start + i] && Offered(s.base, s.journal, p.items[i])
  }

  /** The store has caught up with this record. */
  predicate Has(store: Store, x: Item) {
    x.key in store && !Newer(x.record.version, store[x.key].version)
  }

  ghost predicate StagedSound(w: World) {
    && w.staged.watermark <= |w.source.journal| && w.cursor <= |w.source.keys|
    && Known(w.source, w.staged.records)
    && (forall i :: 0 <= i < w.staged.watermark ==> Has(w.staged.records, w.source.journal[i]))
    && (forall i :: 0 <= i < w.cursor ==> w.source.keys[i] in w.staged.records)
  }

  ghost predicate Inv(w: World) {
    SourceSound(w.source) && (forall p :: p in w.pages ==> PageSound(w.source, p)) && StagedSound(w)
  }

  ghost predicate Grows(a: Store, b: Store) {
    && (forall x :: Has(a, x) ==> Has(b, x))
    && (forall k :: k in a ==> k in b)
  }

  lemma ApplyGrows(store: Store, x: Item)
    ensures Grows(store, Apply(store, x)) && Has(Apply(store, x), x)
  {
  }

  lemma TakeKnown(s: Source, store: Store, x: Item, accepts: Accepts)
    requires Known(s, store) && Offered(s.base, s.journal, x) && Storable(x.record)
    ensures var taken := TakeRecord(store, ToWire(x), accepts);
            taken.Some? ==> Known(s, taken.value) && Grows(store, taken.value) && Has(taken.value, x)
  {
    WireRoundTrip(x);
    ApplyGrows(store, x);
  }

  /** The items, or some of the first of them, are merged into what was there. */
  ghost predicate SnapshotTaken(s: Source, d: Staged, items: seq<Item>, r: (Staged, bool)) {
    && r.0.watermark == d.watermark && Known(s, r.0.records) && Grows(d.records, r.0.records)
    && (r.1 ==> forall x :: x in items ==> x.key in r.0.records)
  }

  lemma {:induction false} SnapshotSnoc(d: Staged, init: seq<Item>, last: Item, accepts: Accepts)
    ensures var (e, ok) := TakeSnapshot(d, Wires(init), accepts);
            var taken := TakeRecord(e.records, ToWire(last), accepts);
            TakeSnapshot(d, Wires(init + [last]), accepts)
              == if ok && taken.Some? then (Staged(taken.value, e.watermark), true) else (e, false)
  {
    assert Wires(init + [last])[..|init|] == Wires(init);
  }

  lemma {:induction false} RecordDelivered(s: Source, d: Staged, init: seq<Item>, last: Item, accepts: Accepts)
    requires SnapshotTaken(s, d, init, TakeSnapshot(d, Wires(init), accepts))
    requires Offered(s.base, s.journal, last) && Storable(last.record)
    ensures SnapshotTaken(s, d, init + [last], TakeSnapshot(d, Wires(init + [last]), accepts))
  {
    SnapshotSnoc(d, init, last, accepts);
    TakeKnown(s, TakeSnapshot(d, Wires(init), accepts).0.records, last, accepts);
  }

  lemma {:induction false} SnapshotDelivered(s: Source, d: Staged, items: seq<Item>, accepts: Accepts)
    requires SourceSound(s) && Known(s, d.records) && forall x :: x in items ==> Offered(s.base, s.journal, x)
    ensures SnapshotTaken(s, d, items, TakeSnapshot(d, Wires(items), accepts))
  {
    if items != [] {
      var init, last := items[..|items| - 1], items[|items| - 1];
      assert last in items && items == init + [last];
      SnapshotDelivered(s, d, init, accepts);
      RecordDelivered(s, d, init, last, accepts);
    }
  }

  /** From d to e the destination took the journal's next entries and lost nothing. */
  ghost predicate Advanced(s: Source, d: Staged, e: Staged) {
    && d.watermark <= e.watermark <= |s.journal| && Known(s, e.records) && Grows(d.records, e.records)
    && forall x :: d.watermark <= x < e.watermark ==> Has(e.records, s.journal[x])
  }

  lemma AdvancedTwice(s: Source, d: Staged, e: Staged, f: Staged)
    requires Advanced(s, d, e) && Advanced(s, e, f)
    ensures Advanced(s, d, f)
  {
  }

  lemma EntryDelivered(s: Source, d: Staged, j: nat, accepts: Accepts)
    requires SourceSound(s) && Known(s, d.records) && j < |s.journal| && d.watermark <= |s.journal|
    ensures var taken := TakeEntry(d, Entry(j + 1, ToWire(s.journal[j])), accepts);
            taken.Some? ==> Advanced(s, d, taken.value)
  {
    assert Offered(s.base, s.journal, s.journal[j]);
    TakeKnown(s, d.records, s.journal[j], accepts);
    var taken := TakeEntry(d, Entry(j + 1, ToWire(s.journal[j])), accepts);
    if taken.Some? && d.watermark == j {
      assert Has(taken.value.records, s.journal[j]);
    }
  }

  lemma AdvancesBy(s: Source, d: Staged, e: Staged, j: nat, accepts: Accepts)
    requires SourceSound(s) && Advanced(s, d, e) && j < |s.journal|
    ensures var taken := TakeEntry(e, Entry(j + 1, ToWire(s.journal[j])), accepts);
            taken.Some? ==> Advanced(s, d, taken.value)
  {
    EntryDelivered(s, e, j, accepts);
    var taken := TakeEntry(e, Entry(j + 1, ToWire(s.journal[j])), accepts);
    if taken.Some? {
      AdvancedTwice(s, d, e, taken.value);
    }
  }

  /** What every taken entry keeps, a batch of entries keeps. */
  lemma {:induction false} BatchKeeps(keeps: Staged -> bool, d: Staged, journal: seq<Item>, i: nat, j: nat, accepts: Accepts)
    requires i <= j <= |journal| && keeps(d)
    requires forall e, x :: keeps(e) && 0 <= x < |journal| && TakeEntry(e, Entry(x + 1, ToWire(journal[x])), accepts).Some?
                        ==> keeps(TakeEntry(e, Entry(x + 1, ToWire(journal[x])), accepts).value)
    ensures keeps(TakeJournal(d, Entries(journal, i, j), accepts).0)
  {
    if i < j {
      BatchKeeps(keeps, d, journal, i, j - 1, accepts);
      EntriesGrow(d, journal, i, j, accepts);
    }
  }

  lemma {:induction false} JournalDelivered(s: Source, d: Staged, i: nat, j: nat, accepts: Accepts)
    requires SourceSound(s) && Known(s, d.records) && d.watermark <= |s.journal| && i <= j <= |s.journal|
    ensures Advanced(s, d, TakeJournal(d, Entries(s.journal, i, j), accepts).0)
  {
    var keeps := e => Advanced(s, d, e);
    forall e, x | keeps(e) && 0 <= x < |s.journal| && TakeEntry(e, Entry(x + 1, ToWire(s.journal[x])), accepts).Some?
      ensures keeps(TakeEntry(e, Entry(x + 1, ToWire(s.journal[x])), accepts).value)
    {
      AdvancesBy(s, d, e, x, accepts);
    }
    BatchKeeps(keeps, d, s.journal, i, j, accepts);
  }

  /** A write's version is newer than every record on offer. */
  lemma NextIsNewest(s: Source, x: Item)
    requires SourceSound(s) && Offered(s.base, s.journal, x)
    ensures Newer(NextVersion(s), x.record.version)
  {
  }

  lemma WriteAppends(s: Source, item: Item)
    requires SourceSound(s) && item.record.version == NextVersion(s)
    ensures Merge(s.base, s.journal + [item]) == s.records[item.key := item.record]
  {
    MergeKeepsHighest(s.base, s.journal);
    assert (s.journal + [item])[..|s.journal|] == s.journal;
    if item.key in s.records {
      NextIsNewest(s, Item(item.key, s.records[item.key]));
    }
  }

  lemma WriteKeepsSource(w: World, e: Event)
    requires SourceSound(w.source) && e.Write? && Enabled(w, e)
    ensures SourceSound(Next(w, e).source)
  {
    var s, t := w.source, Next(w, e).source;
    var item := t.journal[|s.journal|];
    WriteAppends(s, item);
    forall x | Offered(t.base, t.journal, x) ensures Storable(x.record) && Seen(t, x.record.version) {
      assert x == item || Offered(s.base, s.journal, x);
    }
    forall i | 0 <= i < |s.journal| ensures Newer(item.record.version, s.journal[i].record.version) {
      NextIsNewest(s, s.journal[i]);
    }
    forall k | k in s.base ensures Newer(item.record.version, s.base[k].version) {
      NextIsNewest(s, Item(k, s.base[k]));
    }
  }

  /** What was offered stays offered as the journal grows. */
  lemma WriteKeepsRest(w: World, e: Event)
    requires Inv(w) && e.Write? && Enabled(w, e)
    ensures Inv(Next(w, e))
  {
    WriteKeepsSource(w, e);
    var s, t := w.source, Next(w, e).source;
    forall x | Offered(s.base, s.journal, x) ensures Offered(t.base, t.journal, x) {
    }
    forall p | p in w.pages ensures PageSound(t, p) {
      assert PageSound(s, p);
    }
  }

  lemma PageOfIsSound(s: Source, start: nat, next: nat)
    requires SourceSound(s) && Listed(s, start, next)
    ensures PageSound(s, PageOf(s, start, next))
  {
    MergeKeepsHighest(s.base, s.journal);
  }

  lemma ReadKeepsInv(w: World, e: Event)
    requires Inv(w) && e.ReadPage? && Enabled(w, e)
    ensures Inv(Next(w, e))
  {
    PageOfIsSound(w.source, e.start, e.next);
  }

  lemma DeliverKeepsInv(w: World, e: Event)
    requires Inv(w) && (e.DeliverPage? || e.DeliverJournal?) && Enabled(w, e)
    ensures Inv(Next(w, e))
  {
    if e.DeliverPage? {
      assert PageSound(w.source, e.page);
      assert forall x :: x in e.page.items ==> Offered(w.source.base, w.source.journal, x);
      SnapshotDelivered(w.source, w.staged, e.page.items, e.accepts);
      forall i | 0 <= i < Next(w, e).cursor && i >= w.cursor ensures w.source.keys[i] in Next(w, e).staged.records {
        assert e.page.items[i - e.page.start] in e.page.items;
      }
    } else {
      JournalDelivered(w.source, w.staged, e.i, e.j, e.accepts);
    }
  }

  lemma StepKeepsInv(w: World, e: Event)
    requires Inv(w) && Enabled(w, e)
    ensures Inv(Next(w, e))
  {
    match e
    case Write(_, _, _, _) => WriteKeepsRest(w, e);
    case ReadPage(_, _) => ReadKeepsInv(w, e);
    case DeliverPage(_, _) => DeliverKeepsInv(w, e);
    case DeliverJournal(_, _, _) => DeliverKeepsInv(w, e);
    case _ =>
  }

  lemma StepAtKeepsInv(run: seq<World>, i: nat)
    requires i + 1 < |run| && StepAt(run, i) && Inv(run[i])
    ensures Inv(run[i + 1])
  {
    var e :| Enabled(run[i], e) && run[i + 1] == Next(run[i], e);
    StepKeepsInv(run[i], e);
  }

  lemma RunKeepsInv(run: seq<World>, n: nat)
    requires IsRun(run) && n < |run|
    ensures Inv(run[n])
  {
    var inv := w => Inv(w);
    forall j | 0 <= j && j + 1 < |run| && inv(run[j]) ensures Keeps(run, inv, j) {
      StepAtKeepsInv(run, j);
    }
    Throughout(run, inv, 0, n);
  }

  // ----- Theorems -----

  /** The snapshot is through and the journal is applied to its end. */
  predicate CaughtUp(w: World) {
    w.cursor == |w.source.keys| && w.staged.watermark == |w.source.journal|
  }

  /** A version names one record of a key. */
  lemma VersionIsUnique(s: Source, x: Item, y: Item)
    requires SourceSound(s) && Offered(s.base, s.journal, x) && Offered(s.base, s.journal, y)
    requires x.key == y.key && x.record.version == y.record.version
    ensures x == y
  {
  }

  lemma StagedKeyIsHeld(w: World, k: Key)
    requires Inv(w) && k in w.staged.records
    ensures Offered(w.source.base, w.source.journal, Item(k, w.staged.records[k]))
    ensures k in w.source.records && !Newer(w.staged.records[k].version, w.source.records[k].version)
  {
    MergeKeepsHighest(w.source.base, w.source.journal);
  }

  lemma HeldKeyIsStaged(w: World, k: Key)
    requires Inv(w) && CaughtUp(w) && k in w.source.records
    ensures Offered(w.source.base, w.source.journal, Item(k, w.source.records[k])) && k in w.staged.records
    ensures !Newer(w.source.records[k].version, w.staged.records[k].version)
  {
    var s := w.source;
    MergeKeepsHighest(s.base, s.journal);
    var x := Item(k, s.records[k]);
    assert Offered(s.base, s.journal, x);
    if x in s.journal {
      var i :| 0 <= i < |s.journal| && s.journal[i] == x;
      assert Has(w.staged.records, s.journal[i]);
    } else {
      assert k in s.keys;
      StagedKeyIsHeld(w, k);
    }
  }

  lemma CaughtUpKey(w: World, k: Key)
    requires Inv(w) && CaughtUp(w)
    ensures k in w.staged.records <==> k in w.source.records
    ensures k in w.source.records ==> w.staged.records[k] == w.source.records[k]
  {
    if k in w.staged.records {
      StagedKeyIsHeld(w, k);
    }
    if k in w.source.records {
      HeldKeyIsStaged(w, k);
      VersionIsUnique(w.source, Item(k, w.source.records[k]), Item(k, w.staged.records[k]));
    }
  }

  /** In every run, a destination that has caught up holds exactly the source's records. */
  lemma CaughtUpIsEqual(run: seq<World>, n: nat)
    requires IsRun(run) && n < |run| && CaughtUp(run[n])
    ensures run[n].staged.records == run[n].source.records
  {
    RunKeepsInv(run, n);
    forall k ensures k in run[n].staged.records <==> k in run[n].source.records
             ensures k in run[n].source.records ==> run[n].staged.records[k] == run[n].source.records[k] {
      CaughtUpKey(run[n], k);
    }
  }

  lemma PausedStep(w: World, e: Event)
    requires Inv(w) && CaughtUp(w) && w.source.paused && Enabled(w, e)
    ensures CaughtUp(Next(w, e)) && Next(w, e).source.paused && Next(w, e).source.records == w.source.records
  {
    if e.DeliverPage? {
      assert PageSound(w.source, e.page);
      SnapshotDelivered(w.source, w.staged, e.page.items, e.accepts);
    } else if e.DeliverJournal? {
      JournalDelivered(w.source, w.staged, e.i, e.j, e.accepts);
    }
  }

  /** Caught up behind a paused source, whose records are these. */
  ghost predicate AtRest(w: World, records: Store) {
    Inv(w) && CaughtUp(w) && w.source.paused && w.source.records == records
  }

  lemma RestStepAt(run: seq<World>, i: nat, records: Store)
    requires i + 1 < |run| && StepAt(run, i) && AtRest(run[i], records)
    ensures AtRest(run[i + 1], records)
  {
    var e :| Enabled(run[i], e) && run[i + 1] == Next(run[i], e);
    PausedStep(run[i], e);
    StepKeepsInv(run[i], e);
  }

  lemma PausedStays(run: seq<World>, m: nat, n: nat)
    requires IsRun(run) && m <= n < |run| && CaughtUp(run[m]) && run[m].source.paused
    ensures CaughtUp(run[n]) && run[n].source.paused && run[n].source.records == run[m].source.records
  {
    RunKeepsInv(run, m);
    var records := run[m].source.records;
    var inv := w => AtRest(w, records);
    forall j | m <= j && j + 1 < |run| && inv(run[j]) ensures Keeps(run, inv, j) {
      RestStepAt(run, j, records);
    }
    Throughout(run, inv, m, n);
  }

  /** Once the source is paused, the two stay equal whatever is still delivered. */
  lemma PausedStaysEqual(run: seq<World>, m: nat, n: nat)
    requires IsRun(run) && m <= n < |run| && CaughtUp(run[m]) && run[m].source.paused
    ensures run[n].source.paused && run[n].staged.records == run[n].source.records == run[m].source.records
  {
    PausedStays(run, m, n);
    CaughtUpIsEqual(run, n);
  }
}
