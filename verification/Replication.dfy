/**
 Follower streams. An owner numbers the mutations of each follower's stream, gives numbers back when a write cannot be
 queued, sends each stream in batches and drops an entry only once a response has acknowledged it.
 */
module Replication {
  import opened Ring
  import opened Topology

  const BATCH_MAX_ENTRIES: nat := 64
  const MAX_VALUE_BYTES: nat := 128 * 1024 * 1024
  const MAX_DATA_MESSAGE_BYTES: nat := MAX_VALUE_BYTES + 1024 * 1024
  const BATCH_MAX_BYTES: nat := MAX_DATA_MESSAGE_BYTES - 64 * 1024

  datatype Mutation = Mutation(key: string, value: string, owner: NodeId, ownerBytes: nat, id: string)

  datatype Entry = Entry(epoch: nat, follower: NodeId, sequence: nat, ackAwaited: bool, mutation: Mutation)

  datatype StreamKey = StreamKey(epoch: nat, follower: NodeId)

  type Table = map<StreamKey, nat>

  function MutationBytes(m: Mutation): nat {
    |m.key| + |m.value| + m.ownerBytes + |m.id| + 256
  }

  function KeyOf(e: Entry): StreamKey {
    StreamKey(e.epoch, e.follower)
  }

  // ----- Numbering -----

  function LastSequence(t: Table, k: StreamKey): nat {
    if k in t then t[k] else 0
  }

  /** A stream is in the table only once it has carried something. */
  ghost predicate Positive(t: Table) {
    forall k :: k in t ==> t[k] > 0
  }

  ghost predicate DistinctNodes(s: seq<NodeId>) {
    forall i, j :: 0 <= i < j < |s| ==> s[i] != s[j]
  }

  /** The table after every listed follower's stream has grown by one. */
  function Advanced(t: Table, epoch: nat, followers: seq<NodeId>): Table {
    if followers == [] then t
    else
      var before := Advanced(t, epoch, followers[..|followers| - 1]);
      var k := StreamKey(epoch, followers[|followers| - 1]);
      before[k := LastSequence(before, k) + 1]
  }

  lemma {:induction false} AdvancedAt(t: Table, epoch: nat, followers: seq<NodeId>, k: StreamKey)
    requires DistinctNodes(followers)
    ensures LastSequence(Advanced(t, epoch, followers), k)
         == LastSequence(t, k) + if k.epoch == epoch && k.follower in followers then 1 else 0
    ensures k in Advanced(t, epoch, followers) <==> k in t || (k.epoch == epoch && k.follower in followers)
  {
    if followers != [] {
      var init, last := followers[..|followers| - 1], followers[|followers| - 1];
      AdvancedAt(t, epoch, init, k);
      assert followers == init + [last];
    }
  }

  /** The entries of one mutation, one for each follower, each next in its stream. */
  ghost predicate Numbered(t: Table, epoch: nat, followers: seq<NodeId>, awaited: set<NodeId>, m: Mutation, es: seq<Entry>) {
    && |es| == |followers|
    && forall i :: 0 <= i < |es| ==>
      es[i] == Entry(epoch, followers[i], LastSequence(t, StreamKey(epoch, followers[i])) + 1, followers[i] in awaited, m)
  }

  ghost predicate DistinctStreams(es: seq<Entry>) {
    forall i, j :: 0 <= i < j < |es| ==> KeyOf(es[i]) != KeyOf(es[j])
  }

  /** The table after every entry's number has been given back; a stream back at zero leaves the table. */
  function RolledBack(t: Table, es: seq<Entry>): Table {
    if es == [] then t
    else
      var before := RolledBack(t, es[..|es| - 1]);
      var k := KeyOf(es[|es| - 1]);
      if LastSequence(before, k) <= 1 then before - {k} else before[k := before[k] - 1]
  }

  ghost predicate Touches(es: seq<Entry>, k: StreamKey) {
    exists e :: e in es && KeyOf(e) == k
  }

  lemma TouchesLast(es: seq<Entry>, k: StreamKey)
    requires es != [] && DistinctStreams(es)
    ensures Touches(es, k) <==> Touches(es[..|es| - 1], k) || KeyOf(es[|es| - 1]) == k
    ensures !(Touches(es[..|es| - 1], k) && KeyOf(es[|es| - 1]) == k)
  {
    assert es == es[..|es| - 1] + [es[|es| - 1]];
  }

  lemma {:induction false} RolledBackAt(t: Table, es: seq<Entry>, k: StreamKey)
    requires DistinctStreams(es)
    ensures k in RolledBack(t, es) <==> k in t && (Touches(es, k) ==> t[k] > 1)
    ensures k in RolledBack(t, es) ==> RolledBack(t, es)[k] == if Touches(es, k) then t[k] - 1 else t[k]
  {
    if es != [] {
      TouchesLast(es, k);
      RolledBackAt(t, es[..|es| - 1], k);
    }
  }

  lemma NumberedStreams(t: Table, epoch: nat, followers: seq<NodeId>, awaited: set<NodeId>, m: Mutation, es: seq<Entry>,
                        k: StreamKey)
    requires DistinctNodes(followers) && Numbered(t, epoch, followers, awaited, m, es)
    ensures DistinctStreams(es)
    ensures Touches(es, k) <==> k.epoch == epoch && k.follower in followers
  {
    if k.epoch == epoch && k.follower in followers {
      var i :| 0 <= i < |followers| && followers[i] == k.follower;
      assert es[i] in es && KeyOf(es[i]) == k;
    }
  }

  /** Giving the numbers back restores the table exactly, unless it listed one of the streams at zero. */
  lemma {:induction false} RollbackUndoesPrepare(t: Table, epoch: nat, followers: seq<NodeId>, awaited: set<NodeId>,
                                                 m: Mutation, es: seq<Entry>)
    requires DistinctNodes(followers) && Numbered(t, epoch, followers, awaited, m, es)
    ensures RolledBack(Advanced(t, epoch, followers), es) == t
       <==> forall f :: f in followers && StreamKey(epoch, f) in t ==> t[StreamKey(epoch, f)] > 0
  {
    var a := Advanced(t, epoch, followers);
    var r := RolledBack(a, es);
    forall k: StreamKey
      ensures k in r <==> k in t && (k.epoch == epoch && k.follower in followers ==> t[k] > 0)
      ensures k in r ==> r[k] == t[k]
    {
      NumberedStreams(t, epoch, followers, awaited, m, es, k);
      AdvancedAt(t, epoch, followers, k);
      RolledBackAt(a, es, k);
    }
    if f :| f in followers && StreamKey(epoch, f) in t && t[StreamKey(epoch, f)] == 0 {
      assert StreamKey(epoch, f) !in r;
    }
  }

  /** A stream's entries, numbered from one without a gap. */
  ghost predicate Gapless(log: seq<Entry>) {
    forall i :: 0 <= i < |log| ==> log[i].sequence == i + 1
  }

  type Logs = map<StreamKey, seq<Entry>>

  function LogOf(logs: Logs, k: StreamKey): seq<Entry> {
    if k in logs then logs[k] else []
  }

  /** The logs after the entries are queued, each on its own stream. */
  function Queued(logs: Logs, es: seq<Entry>): Logs {
    if es == [] then logs
    else
      var before := Queued(logs, es[..|es| - 1]);
      var last := es[|es| - 1];
      before[KeyOf(last) := LogOf(before, KeyOf(last)) + [last]]
  }

  /** An entry is queued behind what its stream carried; other streams keep what they had. */
  lemma {:induction false} QueuedAt(logs: Logs, es: seq<Entry>, k: StreamKey)
    requires DistinctStreams(es)
    ensures (forall e :: e in es ==> KeyOf(e) != k) ==> LogOf(Queued(logs, es), k) == LogOf(logs, k)
    ensures forall e :: e in es && KeyOf(e) == k ==> LogOf(Queued(logs, es), k) == LogOf(logs, k) + [e]
  {
    if es != [] {
      var init, last := es[..|es| - 1], es[|es| - 1];
      QueuedAt(logs, init, k);
      assert es == init + [last] && last in es;
      if KeyOf(last) == k {
        assert forall e :: e in init ==> KeyOf(e) != k;
      } else {
        assert LogOf(Queued(logs, es), k) == LogOf(Queued(logs, init), k);
      }
    }
  }

  /** The table holds the current epoch's streams, each at the length of its gapless log; no later epoch has any. */
  ghost predicate InStep(t: Table, logs: Logs, epoch: nat) {
    && Positive(t)
    && (forall k :: k in t ==> k.epoch == epoch)
    && (forall k :: Gapless(LogOf(logs, k)))
    && (forall k: StreamKey :: k.epoch == epoch ==> LastSequence(t, k) == |LogOf(logs, k)|)
    && (forall k: StreamKey :: k.epoch > epoch ==> LogOf(logs, k) == [])
  }

  class Owner {
    var epoch: nat
    var sequences: Table
    /** Everything ever handed to each stream's queue. */
    ghost var logs: Logs

    constructor ()
      ensures Valid() && logs == map[]
    {
      epoch, sequences, logs := 0, map[], map[];
    }

    ghost predicate Valid()
      reads this
    {
      InStep(sequences, logs, epoch)
    }

    /** `prepare_replication_entries`: every follower's next number, or nothing if one entry exceeds the budget. */
    method Prepare(followers: seq<NodeId>, awaited: set<NodeId>, m: Mutation, maxPending: nat) returns (r: Option<seq<Entry>>)
      requires DistinctNodes(followers)
      modifies this`sequences
      ensures r.None? <==> MutationBytes(m) > maxPending
      ensures r.None? ==> sequences == old(sequences)
      ensures r.Some? ==> && Numbered(old(sequences), epoch, followers, awaited, m, r.value)
                          && sequences == Advanced(old(sequences), epoch, followers)
    {
      if MutationBytes(m) > maxPending { return None; }
      var es: seq<Entry> := [];
      for i := 0 to |followers|
        invariant sequences == Advanced(old(sequences), epoch, followers[..i])
        invariant Numbered(old(sequences), epoch, followers[..i], awaited, m, es)
      {
        assert followers[..i + 1][..i] == followers[..i];
        var k := StreamKey(epoch, followers[i]);
        AdvancedAt(old(sequences), epoch, followers[..i], k);
        sequences := sequences[k := LastSequence(sequences, k) + 1];
        es := es + [Entry(epoch, followers[i], sequences[k], followers[i] in awaited, m)];
      }
      assert followers[..|followers|] == followers;
      return Some(es);
    }

    /** `rollback_replication_sequences`. */
    method Rollback(es: seq<Entry>)
      requires DistinctStreams(es)
      requires forall e :: e in es ==> KeyOf(e) in sequences && sequences[KeyOf(e)] == e.sequence > 0
      modifies this`sequences
      ensures sequences == RolledBack(old(sequences), es)
    {
      for i := 0 to |es|
        invariant sequences == RolledBack(old(sequences), es[..i])
      {
        assert es[..i + 1][..i] == es[..i];
        var k := KeyOf(es[i]);
        assert k in sequences && sequences[k] == es[i].sequence by {
          RolledBackAt(old(sequences), es[..i], k);
          assert es[i] in es;
        }
        if sequences[k] == 1 {
          sequences := sequences - {k};
        } else {
          sequences := sequences[k := sequences[k] - 1];
        }
      }
      assert es[..|es|] == es;
    }

    /** One mutation's fan-out: prepare, then queue the entries, or roll back if the queues do not take them. A refused
        write leaves no trace; an accepted one extends every follower's stream by its next number and no other stream. */
    method Write(followers: seq<NodeId>, awaited: set<NodeId>, m: Mutation, maxPending: nat, reserved: bool)
      returns (ok: bool, es: seq<Entry>)
      requires Valid() && DistinctNodes(followers)
      modifies this
      ensures Valid() && epoch == old(epoch)
      ensures ok <==> MutationBytes(m) <= maxPending && reserved
      ensures !ok ==> sequences == old(sequences) && logs == old(logs)
      ensures ok ==> Numbered(old(sequences), epoch, followers, awaited, m, es) && logs == Queued(old(logs), es)
    {
      var prepared := Prepare(followers, awaited, m, maxPending);
      if prepared.None? { return false, []; }
      es := prepared.value;
      ghost var t := old(sequences);
      assert DistinctStreams(es) by {
        NumberedStreams(t, epoch, followers, awaited, m, es, StreamKey(0, 0));
      }
      if !reserved {
        forall e | e in es ensures KeyOf(e) in sequences && sequences[KeyOf(e)] == e.sequence > 0 {
          AdvancedAt(t, epoch, followers, KeyOf(e));
        }
        Rollback(es);
        RollbackUndoesPrepare(t, epoch, followers, awaited, m, es);
        return false, [];
      }
      logs := Queued(logs, es);
      StreamsAdvance(t, old(logs), epoch, followers, awaited, m, es);
      return true, es;
    }

    /** A newer topology starts new streams and forgets the numbers of old ones. */
    method InstallEpoch(newer: nat)
      requires Valid()
      modifies this`epoch, this`sequences
      ensures Valid() && epoch == if newer >= old(epoch) then newer else old(epoch)
      ensures newer <= old(epoch) ==> sequences == old(sequences)
    {
      if newer >= epoch {
        assert newer == epoch ==> (map k | k in sequences && k.epoch == newer :: sequences[k]) == sequences;
        epoch := newer;
        sequences := map k | k in sequences && k.epoch == newer :: sequences[k];
      }
    }
  }

  lemma {:induction false} StreamAdvances(t: Table, logs: Logs, epoch: nat, followers: seq<NodeId>, awaited: set<NodeId>,
                                          m: Mutation, es: seq<Entry>, k: StreamKey)
    requires InStep(t, logs, epoch) && DistinctNodes(followers) && Numbered(t, epoch, followers, awaited, m, es)
    ensures Gapless(LogOf(Queued(logs, es), k))
    ensures k.epoch == epoch ==> LastSequence(Advanced(t, epoch, followers), k) == |LogOf(Queued(logs, es), k)|
    ensures k.epoch > epoch ==> LogOf(Queued(logs, es), k) == []
    ensures k in Advanced(t, epoch, followers) ==> k.epoch == epoch && LastSequence(Advanced(t, epoch, followers), k) > 0
  {
    NumberedStreams(t, epoch, followers, awaited, m, es, k);
    AdvancedAt(t, epoch, followers, k);
    QueuedAt(logs, es, k);
    assert Gapless(LogOf(logs, k));
    if e :| e in es && KeyOf(e) == k {
      assert LogOf(Queued(logs, es), k) == LogOf(logs, k) + [e];
    }
  }

  lemma {:induction false} StreamsAdvance(t: Table, logs: Logs, epoch: nat, followers: seq<NodeId>, awaited: set<NodeId>,
                                          m: Mutation, es: seq<Entry>)
    requires InStep(t, logs, epoch) && DistinctNodes(followers) && Numbered(t, epoch, followers, awaited, m, es)
    ensures InStep(Advanced(t, epoch, followers), Queued(logs, es), epoch)
  {
    forall k: StreamKey
      ensures Gapless(LogOf(Queued(logs, es), k))
      ensures k.epoch == epoch ==> LastSequence(Advanced(t, epoch, followers), k) == |LogOf(Queued(logs, es), k)|
      ensures k.epoch > epoch ==> LogOf(Queued(logs, es), k) == []
      ensures k in Advanced(t, epoch, followers) ==> k.epoch == epoch && Advanced(t, epoch, followers)[k] > 0
    {
      StreamAdvances(t, logs, epoch, followers, awaited, m, es, k);
    }
  }

  // ----- Batches -----

  /** How the next entry of a queue meets a collector: already queued, within the linger time, or not in time. */
  datatype Arrival = Queueing | Lingering | Absent

  function TotalBytes(es: seq<Entry>): nat {
    if es == [] then 0 else TotalBytes(es[..|es| - 1]) + MutationBytes(es[|es| - 1].mutation)
  }

  predicate AnyAwaited(es: seq<Entry>) {
    exists e :: e in es && e.ackAwaited
  }

  function Listed(carry: Option<Entry>): seq<Entry> {
    if carry.Some? then [carry.value] else []
  }

  lemma AwaitedGrows(es: seq<Entry>, e: Entry)
    ensures AnyAwaited(es + [e]) <==> AnyAwaited(es) || e.ackAwaited
  {
    assert e in es + [e];
  }

  /** What the collector has in hand: the first entry and what it took from the queue, and it lingered for no entry once a
      write awaited the batch. */
  ghost predicate Collected(first: Entry, queue: seq<Entry>, arrival: seq<Arrival>, batch: seq<Entry>, bytes: nat,
                            taken: nat) {
    && |arrival| == |queue| && taken <= |queue| && batch == [first] + queue[..taken]
    && bytes == TotalBytes(batch) && (|batch| > 1 ==> bytes <= BATCH_MAX_BYTES)
    && forall i :: 0 <= i < taken && arrival[i].Lingering? ==> !AnyAwaited([first] + queue[..i])
  }

  lemma TakenInOrder(first: Entry, queue: seq<Entry>, taken: nat)
    requires taken < |queue|
    ensures [first] + queue[..taken] + [queue[taken]] == [first] + queue[..taken + 1]
  {
  }

  lemma CollectOneMore(first: Entry, queue: seq<Entry>, arrival: seq<Arrival>, batch: seq<Entry>, bytes: nat, taken: nat)
    requires Collected(first, queue, arrival, batch, bytes, taken) && taken < |queue|
    requires arrival[taken].Lingering? ==> !AnyAwaited(batch)
    requires bytes + MutationBytes(queue[taken].mutation) <= BATCH_MAX_BYTES
    ensures Collected(first, queue, arrival, batch + [queue[taken]], bytes + MutationBytes(queue[taken].mutation), taken + 1)
    ensures AnyAwaited(batch + [queue[taken]]) <==> AnyAwaited(batch) || queue[taken].ackAwaited
  {
    TakenInOrder(first, queue, taken);
    assert (batch + [queue[taken]])[..|batch|] == batch;
    AwaitedGrows(batch, queue[taken]);
  }

  /** `collect_replication_batch`: the batch and the carried entry are what was taken from the queue, in order. A batch
      of several entries keeps the byte bound, and no entry is waited for once a write waits for the batch. */
  method CollectBatch(first: Entry, queue: seq<Entry>, arrival: seq<Arrival>)
    returns (batch: seq<Entry>, bytes: nat, carry: Option<Entry>, taken: nat)
    requires |arrival| == |queue|
    ensures taken <= |queue| && batch + Listed(carry) == [first] + queue[..taken]
    ensures 1 <= |batch| <= BATCH_MAX_ENTRIES && bytes == TotalBytes(batch)
    ensures |batch| > 1 ==> bytes <= BATCH_MAX_BYTES
    ensures carry.Some? ==> bytes + MutationBytes(carry.value.mutation) > BATCH_MAX_BYTES
    ensures forall i :: 0 <= i < taken && arrival[i].Lingering? ==> !AnyAwaited([first] + queue[..i])
    ensures carry.None? && |batch| < BATCH_MAX_ENTRIES && taken < |queue| ==>
      arrival[taken].Absent? || (arrival[taken].Lingering? && AnyAwaited(batch))
  {
    batch, bytes, carry, taken := [first], MutationBytes(first.mutation), None, 0;
    assert batch[..0] == [];
    var awaited := first.ackAwaited;
    while |batch| < BATCH_MAX_ENTRIES
      invariant |batch| <= BATCH_MAX_ENTRIES && Collected(first, queue, arrival, batch, bytes, taken)
      invariant awaited == AnyAwaited(batch)
      decreases |queue| - taken
    {
      if taken == |queue| || arrival[taken].Absent? || (arrival[taken].Lingering? && awaited) { break; }
      var next := queue[taken];
      if bytes + MutationBytes(next.mutation) > BATCH_MAX_BYTES {
        TakenInOrder(first, queue, taken);
        carry, taken := Some(next), taken + 1;
        return;
      }
      CollectOneMore(first, queue, arrival, batch, bytes, taken);
      batch, bytes, awaited := batch + [next], bytes + MutationBytes(next.mutation), awaited || next.ackAwaited;
      taken := taken + 1;
    }
  }

  // ----- Delivery -----

  /** What meets one attempt to send a batch. An answer names the follower's process or it does not. */
  datatype Reply = Applied(sequence: nat, named: bool) | Retryable | TimedOut | Rejected | EpochMoved

  /** The highest sequence any of the replies acknowledged. */
  function HighestAck(replies: seq<Reply>): nat {
    if replies == [] then 0
    else
      var before := HighestAck(replies[..|replies| - 1]);
      var last := replies[|replies| - 1];
      if last.Applied? && last.named && last.sequence > before then last.sequence else before
  }

  /** The entries a response does not acknowledge, as `batch.retain` keeps them. */
  function Retained(batch: seq<Entry>, applied: nat): seq<Entry> {
    if batch == [] then []
    else
      var rest := Retained(batch[..|batch| - 1], applied);
      if batch[|batch| - 1].sequence > applied then rest + [batch[|batch| - 1]] else rest
  }

  /** Where what is retained of the stretch a to b begins. */
  function RetainedFrom(a: nat, b: nat, applied: nat): nat {
    if applied <= a then a else if applied >= b then b else applied
  }

  lemma SliceSnoc(log: seq<Entry>, c: nat, b: nat)
    requires c < b <= |log|
    ensures log[c..b] == log[c..b - 1] + [log[b - 1]]
  {
  }

  lemma {:induction false} RetainedSnoc(batch: seq<Entry>, e: Entry, applied: nat)
    ensures Retained(batch + [e], applied) == Retained(batch, applied) + if e.sequence > applied then [e] else []
  {
    assert (batch + [e])[..|batch|] == batch;
  }

  lemma {:induction false} RetainedStep(log: seq<Entry>, a: nat, b: nat, applied: nat)
    requires a < b <= |log| && log[b - 1].sequence == b
    requires Retained(log[a..b - 1], applied) == log[RetainedFrom(a, b - 1, applied)..b - 1]
    ensures Retained(log[a..b], applied) == log[RetainedFrom(a, b, applied)..b]
  {
    SliceSnoc(log, a, b);
    RetainedSnoc(log[a..b - 1], log[b - 1], applied);
    if applied < b { SliceSnoc(log, RetainedFrom(a, b, applied), b); }
  }

  lemma {:induction false} RetainedIsSlice(log: seq<Entry>, a: nat, b: nat, applied: nat)
    requires Gapless(log) && a <= b <= |log|
    ensures Retained(log[a..b], applied) == log[RetainedFrom(a, b, applied)..b]
  {
    if a < b {
      RetainedIsSlice(log, a, b - 1, applied);
      RetainedStep(log, a, b, applied);
    }
  }

  /** In a gapless stream, what is retained is the part behind the acknowledged prefix. */
  lemma {:induction false} RetainedIsSuffix(log: seq<Entry>, a: nat, b: nat, applied: nat)
    requires Gapless(log) && a <= b <= |log|
    ensures Retained(log[a..b], applied) == if applied <= a then log[a..b] else if applied >= b then [] else log[applied..b]
  {
    RetainedIsSlice(log, a, b, applied);
  }

  /** A request: a stretch of the stream. */
  datatype Request = Request(start: nat, entries: seq<Entry>)

  /** A request is a stretch of the stream, no longer than a batch, with nothing unacknowledged in front of it. */
  ghost predicate Stretch(log: seq<Entry>, acked: nat, r: Request) {
    && 0 < |r.entries| <= BATCH_MAX_ENTRIES && r.start + |r.entries| <= |log| && r.start <= acked
    && r.entries == log[r.start..r.start + |r.entries|]
  }

  /** What a sender has sent, judged by the replies it got: stretches that leave no gap between them. */
  ghost predicate Faithful(log: seq<Entry>, replies: seq<Reply>, sent: seq<Request>) {
    && |sent| <= |replies|
    && (forall k :: 0 <= k < |sent| ==> Stretch(log, HighestAck(replies[..k]), sent[k]))
    && (forall k :: 0 <= k < |sent| ==> Continues(sent[..k], sent[k].start))
  }

  /** The next request may start anywhere from the last one's start to its end. */
  ghost predicate Continues(sent: seq<Request>, start: nat) {
    if sent == [] then start == 0
    else
      var last := sent[|sent| - 1];
      last.start <= start <= last.start + |last.entries|
  }

  /** The sender has kept faith so far and may send from `dropped` on. */
  ghost predicate Sending(log: seq<Entry>, replies: seq<Reply>, sent: seq<Request>, dropped: nat) {
    Faithful(log, replies, sent) && Continues(sent, dropped) && dropped <= HighestAck(replies[..|sent|])
  }

  lemma SendKeepsFaithful(log: seq<Entry>, replies: seq<Reply>, sent: seq<Request>, a: nat, b: nat)
    requires Faithful(log, replies, sent) && |sent| < |replies| && a < b <= |log| && b <= a + BATCH_MAX_ENTRIES
    requires Continues(sent, a) && a <= HighestAck(replies[..|sent|])
    ensures Faithful(log, replies, sent + [Request(a, log[a..b])])
  {
    var more := sent + [Request(a, log[a..b])];
    forall k | 0 <= k < |more| ensures Stretch(log, HighestAck(replies[..k]), more[k]) && Continues(more[..k], more[k].start) {
      assert k < |sent| ==> more[..k] == sent[..k];
      assert k == |sent| ==> more[..k] == sent;
    }
  }

  /** After a request and its reply, the sender may go on from anywhere in the request that is acknowledged. */
  lemma SendStep(log: seq<Entry>, replies: seq<Reply>, sent: seq<Request>, a: nat, b: nat, to: nat)
    requires Sending(log, replies, sent, a) && |sent| < |replies| && a < b <= |log| && a <= to <= b <= a + BATCH_MAX_ENTRIES
    requires to == a || (replies[|sent|].Applied? && replies[|sent|].named && to <= replies[|sent|].sequence)
    ensures Sending(log, replies, sent + [Request(a, log[a..b])], to)
  {
    SendKeepsFaithful(log, replies, sent, a, b);
    AckCounts(replies, |sent|);
  }

  lemma AckCounts(replies: seq<Reply>, k: nat)
    requires k < |replies|
    ensures HighestAck(replies[..k]) <= HighestAck(replies[..k + 1])
    ensures replies[k].Applied? && replies[k].named ==> replies[k].sequence <= HighestAck(replies[..k + 1])
  {
    assert replies[..k + 1][..k] == replies[..k];
  }

  datatype Fate = Delivered | Retired | Failed

  /** A reply that fails the stream: a refusal, or an answer that names no process or acknowledges nothing of the request. */
  predicate Fatal(reply: Reply, request: Request) {
    || reply.Rejected?
    || (reply.Applied? && (!reply.named || (request.entries != [] && reply.sequence < request.entries[0].sequence)))
  }

  /** A stretch of the stream fails it if and only if it is refused, or answered without naming the process or without
      getting past its own start: lost and retryable answers never do, and neither does one that takes any of it. */
  lemma FailsExactlyWithoutProgress(log: seq<Entry>, acked: nat, request: Request, reply: Reply)
    requires Gapless(log) && Stretch(log, acked, request)
    ensures Fatal(reply, request)
       <==> reply.Rejected? || (reply.Applied? && (!reply.named || reply.sequence <= request.start))
  {
    assert request.entries[0] == log[request.start];
  }

  lemma FatalStops(replies: seq<Reply>, sent: seq<Request>, request: Request)
    requires |sent| < |replies| && Fatal(replies[|sent|], request)
    ensures Stopped(replies, sent + [request], true)
  {
  }

  /** Why a sender stopped before the end. */
  ghost predicate Stopped(replies: seq<Reply>, sent: seq<Request>, failed: bool) {
    if failed then 0 < |sent| <= |replies| && Fatal(replies[|sent| - 1], sent[|sent| - 1])
    else |sent| >= |replies| || replies[|sent|].EpochMoved?
  }

  /** The retry loop of one batch, log[a..b]: until it is acknowledged whole, the epoch moves on, the replies end, or a
      reply fails the stream. */
  method SendBatch(log: seq<Entry>, a: nat, b: nat, replies: seq<Reply>, sent0: seq<Request>)
    returns (fate: Fate, dropped: nat, sent: seq<Request>)
    requires Gapless(log) && a < b <= |log| && b <= a + BATCH_MAX_ENTRIES && Sending(log, replies, sent0, a)
    ensures Sending(log, replies, sent, dropped) && a <= dropped <= b
    ensures fate.Delivered? <==> dropped == b
    ensures !fate.Delivered? ==> Stopped(replies, sent, fate.Failed?)
  {
    dropped, sent := a, sent0;
    var batch := log[a..b];
    while |sent| < |replies| && replies[|sent|] != EpochMoved
      invariant a <= dropped < b && batch == log[dropped..b] && Sending(log, replies, sent, dropped)
      decreases |replies| - |sent|
    {
      var reply := replies[|sent|];
      var request := Request(dropped, batch);
      if reply.Applied? && !Fatal(reply, request) {
        if reply.sequence >= batch[|batch| - 1].sequence {
          SendStep(log, replies, sent, dropped, b, b);
          return Delivered, b, sent + [request];
        }
        RetainedIsSuffix(log, dropped, b, reply.sequence);
        SendStep(log, replies, sent, dropped, b, reply.sequence);
        batch, dropped := Retained(batch, reply.sequence), reply.sequence;
      } else {
        SendStep(log, replies, sent, dropped, b, dropped);
        if Fatal(reply, request) {
          FatalStops(replies, sent, request);
          return Failed, dropped, sent + [request];
        }
      }
      sent := sent + [request];
    }
    fate := Retired;
  }

  /** What a collector takes from the queue is the next stretch of the stream. */
  lemma StretchOf(log: seq<Entry>, dropped: nat, next: nat, taken: nat, batch: seq<Entry>, carry: seq<Entry>)
    requires dropped < next && next + taken <= |log|
    requires batch + carry == log[dropped..next] + log[next..][..taken]
    ensures dropped + |batch| <= next + taken && batch == log[dropped..dropped + |batch|]
    ensures carry == log[dropped + |batch|..next + taken]
  {
    assert log[next..][..taken] == log[next..next + taken];
    assert batch + carry == log[dropped..next + taken];
    assert batch == (batch + carry)[..|batch|] && carry == (batch + carry)[|batch|..];
  }

  /** The next batch of a stream, with the entry carried over from the last one first. */
  method NextBatch(log: seq<Entry>, arrival: seq<Arrival>, dropped: nat, next: nat, carry: Option<Entry>)
    returns (end: nat, rest: Option<Entry>, next': nat)
    requires |arrival| == |log| && dropped <= next <= |log| && log[dropped..next] == Listed(carry) && dropped < |log|
    ensures dropped < end <= next' <= |log| && log[end..next'] == Listed(rest)
    ensures end - dropped <= BATCH_MAX_ENTRIES
    ensures end - dropped > 1 ==> TotalBytes(log[dropped..end]) <= BATCH_MAX_BYTES
  {
    var first;
    if carry.Some? {
      first, next' := carry.value, next;
    } else {
      first, next' := log[next], next + 1;
    }
    assert log[dropped..next'] == [first];
    var batch, bytes, taken;
    batch, bytes, rest, taken := CollectBatch(first, log[next'..], arrival[next'..]);
    StretchOf(log, dropped, next', taken, batch, Listed(rest));
    end, next' := dropped + |batch|, next' + taken;
  }

  lemma AcknowledgedPrefix(log: seq<Entry>, dropped: nat, acked: nat)
    requires Gapless(log) && dropped <= |log| && dropped <= acked
    ensures forall e :: e in log[..dropped] ==> e.sequence <= acked
  {
  }

  /** `deliver_replication_stream` over everything its queue will ever hold. At the end the entries behind `dropped` are
      still held, in order; every dropped entry had been acknowledged; every request was a stretch of the stream that
      started no later than the first entry not yet sent and behind nothing unacknowledged; and it stops early only when
      the replies end, the epoch moves on or a reply fails the stream. */
  method Deliver(log: seq<Entry>, arrival: seq<Arrival>, replies: seq<Reply>)
    returns (dropped: nat, held: seq<Entry>, sent: seq<Request>, failed: bool)
    requires Gapless(log) && |arrival| == |log|
    ensures Faithful(log, replies, sent)
    ensures dropped <= |log| && held == log[dropped..]
    ensures forall e :: e in log[..dropped] ==> e.sequence <= HighestAck(replies[..|sent|])
    ensures dropped < |log| ==> Stopped(replies, sent, failed)
  {
    dropped, sent, failed := 0, [], false;
    var carry: Option<Entry> := None;
    var next := 0;
    while dropped < |log|
      invariant dropped <= next <= |log| && log[dropped..next] == Listed(carry)
      invariant Sending(log, replies, sent, dropped)
    {
      var end, fate;
      end, carry, next := NextBatch(log, arrival, dropped, next, carry);
      fate, dropped, sent := SendBatch(log, dropped, end, replies, sent);
      if !fate.Delivered? {
        failed := fate.Failed?;
        break;
      }
    }
    held := log[dropped..];
    AcknowledgedPrefix(log, dropped, HighestAck(replies[..|sent|]));
  }
}
