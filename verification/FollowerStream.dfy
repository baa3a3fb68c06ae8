/**
 The follower's side of a stream. It applies entries strictly in order, answers those it already has if it still remembers
 their fingerprints or has them from a verified checkpoint, and refuses gaps. Joined to the sender, a request is
 refused for its order only between a restart of the follower and the next checkpoint that covers what it had
 acknowledged, and nothing is dropped that the follower had not applied.
 */
module FollowerStream {
  import opened Topology
  import opened Replication

  const MAX_FINGERPRINTS: nat := 4_096

  /** The part of the stream a follower's process has, up to `checkpoint` by a verified copy and behind it entry by entry,
      and the numbers whose fingerprints it remembers. */
  datatype Follower = Follower(applied: seq<Entry>, checkpoint: nat, known: set<nat>)

  /** The fingerprints behind the checkpoint reach back as far as the window does. */
  ghost predicate Sound(f: Follower) {
    && f.checkpoint <= |f.applied|
    && (forall n :: n in f.known ==> 1 <= n <= |f.applied|)
    && (forall n: nat :: f.checkpoint < n <= |f.applied| && n + MAX_FINGERPRINTS > |f.applied| ==> n in f.known)
  }

  function Remembering(known: set<nat>, n: nat): set<nat> {
    if n > MAX_FINGERPRINTS then known + {n} - {n - MAX_FINGERPRINTS} else known + {n}
  }

  /** `apply_replication_entry`: `takes` stands for the follower's own checks of an entry it does not have yet. */
  function TakeEntry(f: Follower, e: Entry, takes: bool): Option<Follower> {
    if e.sequence == 0 then None
    else if e.sequence <= |f.applied| then
      if e.sequence in f.known then (if f.applied[e.sequence - 1] == e then Some(f) else None)
      else if e.sequence <= f.checkpoint then Some(f)
      else None
    else if e.sequence == |f.applied| + 1 && takes then
      Some(f.(applied := f.applied + [e], known := Remembering(f.known, e.sequence)))
    else None
  }

  /** `replicate_mutations`: the batch up to the first refused entry. */
  function TakeBatch(f: Follower, batch: seq<Entry>, takes: Entry -> bool): (Follower, bool) {
    if batch == [] then (f, true)
    else
      var (g, ok) := TakeBatch(f, batch[..|batch| - 1], takes);
      var taken := TakeEntry(g, batch[|batch| - 1], takes(batch[|batch| - 1]));
      if !ok || taken.None? then (g, false) else (taken.value, true)
  }

  /** The follower has a prefix of the stream, and got no further than a bound. */
  ghost predicate Within(log: seq<Entry>, f: Follower, bound: nat) {
    Sound(f) && f.applied <= log && |f.applied| <= bound
  }

  lemma TakeKeepsSound(log: seq<Entry>, f: Follower, j: nat, takes: bool, bound: nat)
    requires Gapless(log) && Within(log, f, bound) && j < |log| && j < bound
    ensures var taken := TakeEntry(f, log[j], takes);
            taken.Some? ==> && Within(log, taken.value, bound) && taken.value.checkpoint == f.checkpoint
                            && |f.applied| <= |taken.value.applied| && j < |taken.value.applied|
  {
    assert j == |f.applied| ==> f.applied + [log[j]] == log[..j + 1];
  }

  /** The follower remembers no more fingerprints than its window holds. */
  ghost predicate Windowed(f: Follower) {
    forall n :: n in f.known ==> n + MAX_FINGERPRINTS > |f.applied|
  }

  /** Taking entries one by one, it forgets each fingerprint as it leaves the window. */
  lemma TakeKeepsWindow(f: Follower, e: Entry, takes: bool)
    requires Sound(f) && Windowed(f)
    ensures TakeEntry(f, e, takes).Some? ==> Windowed(TakeEntry(f, e, takes).value)
  {
  }

  /** Taking the stream's entries from a to b. */
  function TakeStretch(log: seq<Entry>, f: Follower, a: nat, b: nat, takes: Entry -> bool): (Follower, bool)
    requires a <= b <= |log|
  {
    if a == b then (f, true)
    else
      var (g, ok) := TakeStretch(log, f, a, b - 1, takes);
      var taken := TakeEntry(g, log[b - 1], takes(log[b - 1]));
      if !ok || taken.None? then (g, false) else (taken.value, true)
  }

  lemma {:induction false} StretchIsBatch(log: seq<Entry>, f: Follower, a: nat, b: nat, takes: Entry -> bool)
    requires a <= b <= |log|
    ensures TakeBatch(f, log[a..b], takes) == TakeStretch(log, f, a, b, takes)
  {
    if a < b {
      StretchIsBatch(log, f, a, b - 1, takes);
      assert log[a..b][..b - 1 - a] == log[a..b - 1];
    }
  }

  /** Whatever stretches of the stream arrive, late, again or cut short, the follower has a prefix of the stream, loses
      nothing, goes no further than the stretch, and has all of a stretch taken whole. */
  lemma {:induction false} FollowerHoldsPrefix(log: seq<Entry>, f: Follower, a: nat, b: nat, takes: Entry -> bool)
    requires Gapless(log) && Sound(f) && f.applied <= log && a <= b <= |log|
    ensures var (g, ok) := TakeStretch(log, f, a, b, takes);
            && Within(log, g, Max(|f.applied|, b)) && g.checkpoint == f.checkpoint && |f.applied| <= |g.applied|
            && (ok ==> b == a || |g.applied| >= b)
  {
    if a < b {
      FollowerHoldsPrefix(log, f, a, b - 1, takes);
      TakeKeepsSound(log, TakeStretch(log, f, a, b - 1, takes).0, b - 1, takes(log[b - 1]), Max(|f.applied|, b));
    }
  }

  /** The follower can answer for everything it has behind a start: by fingerprint, or from its checkpoint. */
  predicate Remembers(f: Follower, start: nat) {
    start <= |f.applied| <= Max(start, f.checkpoint) + MAX_FINGERPRINTS
  }

  lemma RememberedIsAnswered(log: seq<Entry>, f: Follower, j: nat, start: nat)
    requires Gapless(log) && Sound(f) && f.applied <= log && start <= j < |log| && j <= |f.applied|
    requires |f.applied| <= Max(start, f.checkpoint) + MAX_FINGERPRINTS || j == |f.applied|
    ensures TakeEntry(f, log[j], true).Some?
  {
  }

  lemma NextIsAnswered(log: seq<Entry>, f: Follower, g: Follower, a: nat, j: nat)
    requires Gapless(log) && a <= j < |log| && Remembers(f, a) && Within(log, g, Max(|f.applied|, j))
    requires g.checkpoint == f.checkpoint && |f.applied| <= |g.applied| && (j == a || |g.applied| >= j)
    ensures TakeEntry(g, log[j], true).Some?
  {
    RememberedIsAnswered(log, g, j, a);
  }

  /** A stretch that starts within what the follower has, and not before what it remembers, is taken whole unless the
      follower itself refuses an entry. */
  lemma {:induction false} NoGapNoRefusal(log: seq<Entry>, f: Follower, a: nat, b: nat, takes: Entry -> bool)
    requires Gapless(log) && Sound(f) && f.applied <= log && a <= b <= |log| && Remembers(f, a)
    requires forall j :: a <= j < b ==> takes(log[j])
    ensures TakeStretch(log, f, a, b, takes).1
  {
    if a < b {
      NoGapNoRefusal(log, f, a, b - 1, takes);
      FollowerHoldsPrefix(log, f, a, b - 1, takes);
      NextIsAnswered(log, f, TakeStretch(log, f, a, b - 1, takes).0, a, b - 1);
    }
  }

  // ----- Sender and follower together -----

  /** A verified checkpoint may put the follower further along the stream. */
  ghost predicate Checkpointed(log: seq<Entry>, f: Follower, g: Follower) {
    g == f || (g.applied <= log && |f.applied| <= |g.applied| == g.checkpoint && g.known == f.known)
  }

  /** One request: it reaches the follower or not, its answer reaches the sender or not, and only the follower's own answer
      acknowledges anything. A checkpoint may come in between. */
  ghost predicate Steady(log: seq<Entry>, request: Request, reply: Reply, f: Follower, g: Follower) {
    exists h :: Reached(f, request.entries, h) && Answers(reply, h) && Checkpointed(log, h, g)
  }

  /** The follower's process before any checkpoint: it has nothing and remembers nothing. */
  const RESTARTED: Follower := Follower([], 0, {})

  /** The same, but a new process takes over before the next request. */
  ghost predicate Interrupted(request: Request, reply: Reply, f: Follower, g: Follower) {
    g == RESTARTED && exists h :: Reached(f, request.entries, h) && Answers(reply, h)
  }

  ghost predicate Exchange(log: seq<Entry>, request: Request, reply: Reply, f: Follower, g: Follower) {
    Steady(log, request, reply, f, g) || Interrupted(request, reply, f, g)
  }

  /** Nothing arrived, or the batch was taken as far as the follower would. */
  ghost predicate Reached(f: Follower, entries: seq<Entry>, h: Follower) {
    h == f || exists takes :: h == TakeBatch(f, entries, takes).0
  }

  predicate Answers(reply: Reply, h: Follower) {
    reply.Applied? && reply.named ==> reply.sequence == |h.applied|
  }

  /** The follower in front of each request and behind the last one. It starts at its checkpoint. */
  ghost predicate Conversation(log: seq<Entry>, replies: seq<Reply>, sent: seq<Request>, fs: seq<Follower>) {
    && |fs| == |sent| + 1 && |sent| <= |replies|
    && Sound(fs[0]) && fs[0].applied <= log && |fs[0].applied| == fs[0].checkpoint
    && forall k :: 0 <= k < |sent| ==> ExchangeAt(log, replies, sent, fs, k)
  }

  ghost predicate ExchangeAt(log: seq<Entry>, replies: seq<Reply>, sent: seq<Request>, fs: seq<Follower>, k: nat)
    requires k < |sent| <= |replies| && |fs| == |sent| + 1
  {
    Exchange(log, sent[k], replies[k], fs[k], fs[k + 1])
  }

  /** From request j to request k the follower did not restart. */
  ghost predicate SteadyFrom(log: seq<Entry>, replies: seq<Reply>, sent: seq<Request>, fs: seq<Follower>, j: nat, k: nat)
    requires j <= k <= |sent| <= |replies| && |fs| == |sent| + 1
  {
    forall i :: j <= i < k ==> SteadyAt(log, replies, sent, fs, i)
  }

  ghost predicate SteadyAt(log: seq<Entry>, replies: seq<Reply>, sent: seq<Request>, fs: seq<Follower>, k: nat)
    requires k < |sent| <= |replies| && |fs| == |sent| + 1
  {
    Steady(log, sent[k], replies[k], fs[k], fs[k + 1])
  }

  /** In front of request k the follower has everything that was acknowledged: from the start on, and again once a
      checkpoint covers it. */
  ghost predicate Covers(replies: seq<Reply>, fs: seq<Follower>, k: nat)
    requires k <= |replies| && k < |fs|
  {
    HighestAck(replies[..k]) <= |fs[k].applied|
  }

  lemma CheckpointKeepsSound(log: seq<Entry>, f: Follower, g: Follower)
    requires Sound(f) && f.applied <= log && Checkpointed(log, f, g)
    ensures Sound(g) && g.applied <= log && |f.applied| <= |g.applied|
    ensures |g.applied| <= Max(g.checkpoint, |f.applied|)
    ensures |f.applied| > f.checkpoint && g != f ==> |g.applied| == g.checkpoint
    ensures f.checkpoint <= g.checkpoint
  {
  }

  /** How far ahead of the last request's start a follower can be, but for its checkpoint. */
  function Reach(sent: seq<Request>): nat {
    if sent == [] then 0 else sent[|sent| - 1].start + BATCH_MAX_ENTRIES
  }

  /** In front of each request: the follower has a prefix, and it is at its checkpoint or within a batch of the last
      request. */
  ghost predicate InStepAt(log: seq<Entry>, sent: seq<Request>, fs: seq<Follower>, k: nat)
    requires k <= |sent| && |fs| == |sent| + 1
  {
    Sound(fs[k]) && fs[k].applied <= log && |fs[k].applied| <= Max(fs[k].checkpoint, Reach(sent[..k]))
  }

  lemma HighestAckGrows(replies: seq<Reply>, k: nat)
    requires k < |replies|
    ensures HighestAck(replies[..k + 1])
         == if replies[k].Applied? && replies[k].named then Max(HighestAck(replies[..k]), replies[k].sequence)
            else HighestAck(replies[..k])
  {
    assert replies[..k + 1][..k] == replies[..k];
  }

  lemma ExchangeKeepsStep(log: seq<Entry>, request: Request, reply: Reply, f: Follower, g: Follower, acked: nat, reach: nat)
    requires Gapless(log) && Stretch(log, acked, request) && Exchange(log, request, reply, f, g)
    requires Sound(f) && f.applied <= log && |f.applied| <= Max(f.checkpoint, reach)
    requires reach <= request.start + BATCH_MAX_ENTRIES
    ensures Sound(g) && g.applied <= log && |g.applied| <= Max(g.checkpoint, request.start + BATCH_MAX_ENTRIES)
  {
    if Steady(log, request, reply, f, g) {
      var h :| Reached(f, request.entries, h) && Answers(reply, h) && Checkpointed(log, h, g);
      ReachedIsSound(log, request, f, h, acked);
      CheckpointKeepsSound(log, h, g);
    }
  }

  lemma SteadyLosesNothing(log: seq<Entry>, request: Request, reply: Reply, f: Follower, g: Follower, acked: nat)
    requires Gapless(log) && Stretch(log, acked, request) && Steady(log, request, reply, f, g) && Sound(f) && f.applied <= log
    ensures |f.applied| <= |g.applied| && (reply.Applied? && reply.named ==> reply.sequence <= |g.applied|)
  {
    var h :| Reached(f, request.entries, h) && Answers(reply, h) && Checkpointed(log, h, g);
    ReachedIsSound(log, request, f, h, acked);
    CheckpointKeepsSound(log, h, g);
  }

  lemma ReachedIsSound(log: seq<Entry>, request: Request, f: Follower, h: Follower, acked: nat)
    requires Gapless(log) && Stretch(log, acked, request) && Sound(f) && f.applied <= log && Reached(f, request.entries, h)
    ensures Within(log, h, Max(|f.applied|, request.start + BATCH_MAX_ENTRIES))
    ensures h.checkpoint == f.checkpoint && |f.applied| <= |h.applied|
  {
    if h != f {
      var takes :| h == TakeBatch(f, request.entries, takes).0;
      var end := request.start + |request.entries|;
      assert request.entries == log[request.start..end];
      StretchIsBatch(log, f, request.start, end, takes);
      FollowerHoldsPrefix(log, f, request.start, end, takes);
    }
  }

  lemma ReachRises(log: seq<Entry>, replies: seq<Reply>, sent: seq<Request>, k: nat)
    requires Faithful(log, replies, sent) && k < |sent|
    ensures Reach(sent[..k]) <= sent[k].start + BATCH_MAX_ENTRIES && Reach(sent[..k + 1]) == sent[k].start + BATCH_MAX_ENTRIES
  {
    assert Continues(sent[..k], sent[k].start);
  }

  lemma {:induction false} ConversationKeepsStep(log: seq<Entry>, replies: seq<Reply>, sent: seq<Request>, fs: seq<Follower>,
                                                 k: nat)
    requires Gapless(log) && Faithful(log, replies, sent) && Conversation(log, replies, sent, fs) && k <= |sent|
    ensures InStepAt(log, sent, fs, k)
  {
    if k > 0 {
      ConversationKeepsStep(log, replies, sent, fs, k - 1);
      ReachRises(log, replies, sent, k - 1);
      assert ExchangeAt(log, replies, sent, fs, k - 1);
      ExchangeKeepsStep(log, sent[k - 1], replies[k - 1], fs[k - 1], fs[k], HighestAck(replies[..k - 1]),
                        Reach(sent[..k - 1]));
    }
  }

  /** When every acknowledgement is the follower's own answer, whatever is lost or repeated in between and however often the
      follower restarts, a request is refused for its order, a gap or a forgotten fingerprint, exactly if it starts
      behind what the follower's process has. */
  lemma RefusedExactlyBehind(log: seq<Entry>, replies: seq<Reply>, sent: seq<Request>, fs: seq<Follower>, k: nat,
                             takes: Entry -> bool)
    requires Gapless(log) && Faithful(log, replies, sent) && Conversation(log, replies, sent, fs) && k < |sent|
    requires forall e :: e in sent[k].entries ==> takes(e)
    ensures TakeBatch(fs[k], sent[k].entries, takes).1 <==> sent[k].start <= |fs[k].applied|
  {
    ConversationKeepsStep(log, replies, sent, fs, k);
    ReachRises(log, replies, sent, k);
    if sent[k].start <= |fs[k].applied| {
      StretchIsTaken(log, fs[k], sent[k], HighestAck(replies[..k]), takes);
    } else {
      GapIsRefused(log, fs[k], sent[k], HighestAck(replies[..k]), takes);
    }
  }

  lemma {:induction false} FirstIsRefused(log: seq<Entry>, f: Follower, a: nat, b: nat, takes: Entry -> bool)
    requires Gapless(log) && |f.applied| < a < b <= |log|
    ensures TakeStretch(log, f, a, b, takes) == (f, false)
  {
    if a + 1 < b {
      FirstIsRefused(log, f, a, b - 1, takes);
    } else {
      assert TakeStretch(log, f, a, a, takes) == (f, true);
    }
  }

  lemma {:induction false} GapIsRefused(log: seq<Entry>, f: Follower, r: Request, acked: nat, takes: Entry -> bool)
    requires Gapless(log) && Stretch(log, acked, r) && |f.applied| < r.start
    ensures !TakeBatch(f, r.entries, takes).1
  {
    var end := r.start + |r.entries|;
    assert r.entries == log[r.start..end];
    StretchIsBatch(log, f, r.start, end, takes);
    FirstIsRefused(log, f, r.start, end, takes);
  }

  /** What a follower has of the acknowledged stream it keeps, until it restarts. */
  lemma {:induction false} CoversOn(log: seq<Entry>, replies: seq<Reply>, sent: seq<Request>, fs: seq<Follower>, j: nat,
                                    k: nat)
    requires Gapless(log) && Faithful(log, replies, sent) && Conversation(log, replies, sent, fs) && j <= k <= |sent|
    requires Covers(replies, fs, j) && SteadyFrom(log, replies, sent, fs, j, k)
    ensures Covers(replies, fs, k)
  {
    if j < k {
      CoversOn(log, replies, sent, fs, j, k - 1);
      ConversationKeepsStep(log, replies, sent, fs, k - 1);
      HighestAckGrows(replies, k - 1);
      assert SteadyAt(log, replies, sent, fs, k - 1);
      SteadyLosesNothing(log, sent[k - 1], replies[k - 1], fs[k - 1], fs[k], HighestAck(replies[..k - 1]));
    }
  }

  /** So a request is refused for its order only between a restart and the next checkpoint that covers what was
      acknowledged: a follower that had all of it at some request, as it does at the first, and has not restarted since
      takes every request it agrees to. */
  lemma NoRequestIsRefusedForOrder(log: seq<Entry>, replies: seq<Reply>, sent: seq<Request>, fs: seq<Follower>, j: nat,
                                   k: nat, takes: Entry -> bool)
    requires Gapless(log) && Faithful(log, replies, sent) && Conversation(log, replies, sent, fs) && j <= k < |sent|
    requires Covers(replies, fs, j) && SteadyFrom(log, replies, sent, fs, j, k)
    requires forall e :: e in sent[k].entries ==> takes(e)
    ensures Covers(replies, fs, 0) && TakeBatch(fs[k], sent[k].entries, takes).1
  {
    CoversOn(log, replies, sent, fs, j, k);
    RefusedExactlyBehind(log, replies, sent, fs, k, takes);
  }

  lemma {:induction false} StretchIsTaken(log: seq<Entry>, f: Follower, r: Request, acked: nat, takes: Entry -> bool)
    requires Gapless(log) && Sound(f) && f.applied <= log && Stretch(log, acked, r) && Remembers(f, r.start)
    requires forall e :: e in r.entries ==> takes(e)
    ensures TakeBatch(f, r.entries, takes).1
  {
    var end := r.start + |r.entries|;
    assert r.entries == log[r.start..end];
    forall j | r.start <= j < end ensures takes(log[j]) {
      assert r.entries[j - r.start] in r.entries;
    }
    StretchIsBatch(log, f, r.start, end, takes);
    NoGapNoRefusal(log, f, r.start, end, takes);
  }

  /** The follower, as it was when it answered request k, has the first n entries of the stream. */
  ghost predicate HadAt(log: seq<Entry>, replies: seq<Reply>, sent: seq<Request>, fs: seq<Follower>, k: nat, n: nat)
    requires k < |sent| <= |replies| && |fs| == |sent| + 1 && n <= |log|
  {
    exists h :: Reached(fs[k], sent[k].entries, h) && Answers(replies[k], h) && log[..n] <= h.applied
  }

  lemma AnswererHad(log: seq<Entry>, replies: seq<Reply>, sent: seq<Request>, fs: seq<Follower>, k: nat, n: nat)
    requires Gapless(log) && Faithful(log, replies, sent) && Conversation(log, replies, sent, fs) && k < |sent|
    requires replies[k].Applied? && replies[k].named && n <= replies[k].sequence && n <= |log|
    ensures HadAt(log, replies, sent, fs, k, n)
  {
    assert ExchangeAt(log, replies, sent, fs, k);
    var h :| Reached(fs[k], sent[k].entries, h) && Answers(replies[k], h);
    ConversationKeepsStep(log, replies, sent, fs, k);
    ReachedIsSound(log, sent[k], fs[k], h, HighestAck(replies[..k]));
    assert log[..n] == h.applied[..n];
  }

  /** Every entry the sender drops is one that the follower's process had applied when it acknowledged it. */
  lemma {:induction false} DroppedIsApplied(log: seq<Entry>, replies: seq<Reply>, sent: seq<Request>, fs: seq<Follower>,
                                            m: nat, dropped: nat)
    returns (k: nat)
    requires Gapless(log) && Faithful(log, replies, sent) && Conversation(log, replies, sent, fs) && m <= |sent|
    requires 0 < dropped <= |log| && dropped <= HighestAck(replies[..m])
    ensures k < m && HadAt(log, replies, sent, fs, k, dropped)
  {
    HighestAckGrows(replies, m - 1);
    if dropped <= HighestAck(replies[..m - 1]) {
      k := DroppedIsApplied(log, replies, sent, fs, m - 1, dropped);
    } else {
      k := m - 1;
      AnswererHad(log, replies, sent, fs, k, dropped);
    }
  }

  /** And it still has them unless it has restarted since. */
  lemma DroppedStaysApplied(log: seq<Entry>, replies: seq<Reply>, sent: seq<Request>, fs: seq<Follower>, j: nat, dropped: nat)
    requires Gapless(log) && Faithful(log, replies, sent) && Conversation(log, replies, sent, fs) && j <= |sent|
    requires Covers(replies, fs, j) && SteadyFrom(log, replies, sent, fs, j, |sent|)
    requires dropped <= |log| && dropped <= HighestAck(replies[..|sent|])
    ensures log[..dropped] <= fs[|sent|].applied
  {
    ConversationKeepsStep(log, replies, sent, fs, |sent|);
    CoversOn(log, replies, sent, fs, j, |sent|);
  }

  /** A follower that takes a request, or any of it, never fails the stream by answering so. */
  lemma {:induction false} TakenNeverFails(log: seq<Entry>, acked: nat, request: Request, f: Follower,
                                           takes: Entry -> bool)
    requires Gapless(log) && Stretch(log, acked, request) && Sound(f) && f.applied <= log
    ensures var (g, ok) := TakeBatch(f, request.entries, takes);
            Fatal(Applied(|g.applied|, true), request) <==> |g.applied| <= request.start
    ensures var (g, ok) := TakeBatch(f, request.entries, takes);
            ok ==> !Fatal(Applied(|g.applied|, true), request)
  {
    var end := request.start + |request.entries|;
    var g := TakeBatch(f, request.entries, takes).0;
    StretchIsBatch(log, f, request.start, end, takes);
    FollowerHoldsPrefix(log, f, request.start, end, takes);
    FailsExactlyWithoutProgress(log, acked, request, Applied(|g.applied|, true));
  }
}
