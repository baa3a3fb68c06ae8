/**
 A scan round the ring: each stretch from whichever node owns it when asked, whatever the topology was
 for the other stretches. A completed scan returns every key that stayed live exactly once.
 */
module Scan {
  import opened Ring
  import opened Topology
  import opened Keyspace

  const SCAN_PAGES_PER_CALL: nat := 64
  const KEY_BYTES_PER_PAGE: nat := 1_048_576
  const PER_KEY_OVERHEAD_BYTES: nat := 64
  const MAX_KEYS_PER_PAGE: nat := 10_000
  const MAX_KEY_BYTES_PER_PAGE: nat := 4_194_304
  const MAX_EXAMINED_PER_PAGE: nat := 10_000
  const MAX_U32: nat := 0xFFFF_FFFF

  /** What one page request meets: nobody, or some node in some state with its own topology, clock and lease.
      Nothing relates one attempt to the next. */
  datatype Attempt = Unreachable | Reached(ns: NodeState, node: NodeId, now: nat, leased: bool)

  ghost predicate AttemptValid(a: Attempt, tok: KeyToken) {
    a.Reached? ==> Sorted(a.ns.assignments) && |a.ns.assignments| > 0 && Indexed(a.ns, tok)
  }

  function Clamp(x: nat, lo: nat, hi: nat): nat {
    if x < lo then lo else if x > hi then hi else x
  }

  function StretchLimits(maxKeys: nat, maxBytes: nat): PageLimits {
    PageLimits(Clamp(maxKeys, 1, MAX_KEYS_PER_PAGE), Clamp(maxBytes, 1, MAX_KEY_BYTES_PER_PAGE), MAX_EXAMINED_PER_PAGE,
               false, true)
  }

  /** A request within the node's own limits is served as it was asked; one beyond them is cut to them, and one that asks for
      nothing gets one. */
  lemma LimitsAreTheRequests(maxKeys: nat, maxBytes: nat)
    ensures var l := StretchLimits(maxKeys, maxBytes);
            && (1 <= maxKeys <= MAX_KEYS_PER_PAGE ==> l.maxKeys == maxKeys)
            && (1 <= maxBytes <= MAX_KEY_BYTES_PER_PAGE ==> l.maxBytes == maxBytes)
            && 1 <= l.maxKeys <= MAX_KEYS_PER_PAGE && 1 <= l.maxBytes <= MAX_KEY_BYTES_PER_PAGE
            && (maxKeys == 0 ==> l.maxKeys == 1) && (maxKeys > MAX_KEYS_PER_PAGE ==> l.maxKeys == MAX_KEYS_PER_PAGE)
            && (maxBytes == 0 ==> l.maxBytes == 1)
            && (maxBytes > MAX_KEY_BYTES_PER_PAGE ==> l.maxBytes == MAX_KEY_BYTES_PER_PAGE) && l.oneStretch && !l.countOnly
  {
  }

  /** The node's handler of a one-stretch page: only a leased owner of the start token answers. */
  method ListKeys(a: Attempt, start: Token, maxKeys: nat, ghost tok: KeyToken) returns (r: Option<KeyPage>)
    requires AttemptValid(a, tok)
    ensures r.Some? <==> a.Reached? && a.leased && Owner(a.ns.assignments, start) == a.node
    ensures r.Some? ==> PageExact(a.ns, a.node, start, a.now, StretchLimits(maxKeys, KEY_BYTES_PER_PAGE), r.value)
  {
    if a.Unreachable? || !a.leased || Owner(a.ns.assignments, start) != a.node { return None; }
    var page := OwnedKeysPage(a.ns, a.node, start, a.now, StretchLimits(maxKeys, KEY_BYTES_PER_PAGE));
    return Some(page);
  }

  // ----- Traces -----

  /** One answered stretch: who answered, in what state, for which tokens, with which keys. */
  datatype Stop = Stop(ns: NodeState, node: NodeId, now: nat, start: nat, end: nat, keys: seq<Key>)

  ghost predicate StopSound(s: Stop, tok: KeyToken) {
    && |s.ns.assignments| > 0 && Indexed(s.ns, tok) && s.start < s.end <= RING_END
    && OwnsStretch(s.ns, s.node, s.start, s.end)
    && s.keys == OwnedKeys(s.ns, s.node, s.now, s.start, s.end)
  }

  predicate Contiguous(trace: seq<Stop>, lo: nat, hi: nat) {
    if trace == [] then lo == hi
    else Contiguous(trace[..|trace| - 1], lo, trace[|trace| - 1].start) && trace[|trace| - 1].end == hi
  }

  /** Contiguous answered stretches from lo to hi. */
  ghost predicate IsTrace(trace: seq<Stop>, lo: nat, hi: nat, tok: KeyToken) {
    Contiguous(trace, lo, hi) && forall s :: s in trace ==> StopSound(s, tok)
  }

  function Listed(trace: seq<Stop>): seq<Key> {
    if trace == [] then [] else Listed(trace[..|trace| - 1]) + trace[|trace| - 1].keys
  }

  function Kept(keys: seq<Key>, keep: Key -> bool): seq<Key> {
    if keys == [] then []
    else
      var rest := Kept(keys[..|keys| - 1], keep);
      if keep(keys[|keys| - 1]) then rest + [keys[|keys| - 1]] else rest
  }

  lemma {:induction false} KeptAppend(a: seq<Key>, b: seq<Key>, keep: Key -> bool)
    ensures Kept(a + b, keep) == Kept(a, keep) + Kept(b, keep)
  {
    if b == [] {
      assert a + b == a;
    } else {
      KeptAppend(a, b[..|b| - 1], keep);
      assert (a + b)[..|a + b| - 1] == a + b[..|b| - 1];
    }
  }

  lemma Regroup(a: seq<Key>, b: seq<Key>, c: seq<Key>)
    ensures a + b + c == a + (b + c)
  {
  }

  lemma {:induction false} ListedAppend(a: seq<Stop>, b: seq<Stop>)
    ensures Listed(a + b) == Listed(a) + Listed(b)
  {
    if b == [] {
      assert a + b == a;
    } else {
      var init, last := b[..|b| - 1], b[|b| - 1];
      ListedAppend(a, init);
      assert (a + b)[..|a + b| - 1] == a + init && (a + b)[|a + b| - 1] == last;
      Regroup(Listed(a), Listed(init), last.keys);
    }
  }

  lemma {:induction false} StretchesJoin(a: seq<Stop>, b: seq<Stop>, lo: nat, mid: nat, hi: nat)
    requires Contiguous(a, lo, mid) && Contiguous(b, mid, hi)
    ensures Contiguous(a + b, lo, hi)
  {
    if b == [] {
      assert a + b == a;
    } else {
      StretchesJoin(a, b[..|b| - 1], lo, mid, b[|b| - 1].start);
      assert (a + b)[..|a + b| - 1] == a + b[..|b| - 1];
    }
  }

  /** The steps of one scan continue each other. */
  lemma {:induction false} TracesJoin(a: seq<Stop>, b: seq<Stop>, lo: nat, mid: nat, hi: nat, tok: KeyToken)
    requires IsTrace(a, lo, mid, tok) && IsTrace(b, mid, hi, tok)
    ensures IsTrace(a + b, lo, hi, tok) && Listed(a + b) == Listed(a) + Listed(b)
  {
    ListedAppend(a, b);
    StretchesJoin(a, b, lo, mid, hi);
  }

  // ----- One call -----

  datatype ScanOutcome = Step(keys: seq<Key>, next: Option<Token>) | TooLarge | DeadlineExceeded

  /** What kept keys cost. */
  function Cost(keys: seq<Key>): nat {
    if keys == [] then 0 else Cost(keys[..|keys| - 1]) + |keys[|keys| - 1]| + PER_KEY_OVERHEAD_BYTES
  }

  lemma {:induction false} CostAppend(a: seq<Key>, b: seq<Key>)
    ensures Cost(a + b) == Cost(a) + Cost(b)
  {
    if b == [] {
      assert a + b == a;
    } else {
      CostAppend(a, b[..|b| - 1]);
      assert (a + b)[..|a + b| - 1] == a + b[..|b| - 1];
    }
  }

  lemma {:induction false} KeptPrefixCost(page: seq<Key>, i: nat, keep: Key -> bool)
    requires i <= |page|
    ensures Cost(Kept(page[..i], keep)) <= Cost(Kept(page, keep))
  {
    assert page == page[..i] + page[i..];
    KeptAppend(page[..i], page[i..], keep);
    CostAppend(Kept(page[..i], keep), Kept(page[i..], keep));
  }

  /** The wanted keys of one page, refused exactly if they cost too much with those before. */
  method KeepWithin(page: seq<Key>, keep: Key -> bool, maxBytes: nat, kept: seq<Key>, keptBytes: nat)
    returns (ok: bool, keys: seq<Key>, bytes: nat)
    requires keptBytes <= maxBytes
    ensures ok ==> keys == kept + Kept(page, keep) && bytes == keptBytes + Cost(Kept(page, keep))
    ensures ok <==> keptBytes + Cost(Kept(page, keep)) <= maxBytes
  {
    keys, bytes := kept, keptBytes;
    for i := 0 to |page|
      invariant keys == kept + Kept(page[..i], keep)
      invariant bytes == keptBytes + Cost(Kept(page[..i], keep)) <= maxBytes
    {
      assert page[..i + 1][..i] == page[..i];
      if keep(page[i]) {
        bytes := bytes + |page[i]| + PER_KEY_OVERHEAD_BYTES;
        if bytes > maxBytes {
          KeptPrefixCost(page, i + 1, keep);
          return false, keys, bytes;
        }
        keys := keys + [page[i]];
      }
    }
    assert page[..|page|] == page;
    return true, keys, bytes;
  }

  ghost predicate FromAttempts(trace: seq<Stop>, attempts: seq<Attempt>) {
    forall s :: s in trace ==> Reached(s.ns, s.node, s.now, true) in attempts
  }

  /** The keys are the kept ones of contiguous stretches from the cursor to the end, each answered by a leased owner
      among those asked. */
  ghost predicate StepExact(cursor: nat, end: nat, keep: Key -> bool, keys: seq<Key>, attempts: seq<Attempt>, tok: KeyToken) {
    exists trace :: IsTrace(trace, cursor, end, tok) && keys == Kept(Listed(trace), keep) && FromAttempts(trace, attempts)
  }

  function StepEnd(out: ScanOutcome): nat
    requires out.Step?
  {
    if out.next.Some? then out.next.value else RING_END
  }

  /** The request met no leased owner of the token. */
  ghost predicate Refused(a: Attempt, t: Token) {
    !(a.Reached? && a.leased && |a.ns.assignments| > 0 && Owner(a.ns.assignments, t) == a.node)
  }

  /** The request was answered by the trace, or refused where it once stood. */
  ghost predicate Used(a: Attempt, trace: seq<Stop>, cursor: Token) {
    || (exists s :: s in trace && a == Reached(s.ns, s.node, s.now, true))
    || Refused(a, cursor) || exists s :: s in trace && s.end <= MAX_TOKEN && Refused(a, s.end)
  }

  ghost predicate AllUsed(attempts: seq<Attempt>, trace: seq<Stop>, cursor: Token) {
    forall a :: a in attempts ==> Used(a, trace, cursor)
  }

  function Wanted(count: nat): nat {
    if count == 0 then 1 else count
  }

  /** Why a call of `scan` ends where it does: the ring ends, its page budget or its count is reached, the wanted keys cost
      too much, or its time is up before any of these with every request used. */
  ghost predicate EndsForCause(out: ScanOutcome, trace: seq<Stop>, cursor: Token, count: nat, keep: Key -> bool,
                               maxBytes: nat, attempts: seq<Attempt>)
  {
    && |trace| <= SCAN_PAGES_PER_CALL
    && match out
       case Step(keys, next) =>
         && Cost(keys) <= maxBytes
         && (next.Some? ==> |trace| == SCAN_PAGES_PER_CALL || |Listed(trace)| >= Wanted(count))
       case TooLarge => Cost(Kept(Listed(trace), keep)) > maxBytes
       case DeadlineExceeded =>
         |trace| < SCAN_PAGES_PER_CALL && |Listed(trace)| < Wanted(count) && AllUsed(attempts, trace, cursor)
  }

  /** The trace covers the tokens from the cursor to the end, with these kept keys, and has used all that was asked. */
  ghost predicate Covering(trace: seq<Stop>, cursor: Token, end: nat, keys: seq<Key>, keep: Key -> bool, asked: seq<Attempt>,
                           tok: KeyToken)
  {
    && IsTrace(trace, cursor, end, tok) && keys == Kept(Listed(trace), keep) && (trace != [] ==> cursor < end)
    && FromAttempts(trace, asked) && AllUsed(asked, trace, cursor) && StandsAt(trace, cursor, end)
  }

  /** What the loop of `scan` has in hand. */
  datatype Sweep = Sweep(position: Token, keys: seq<Key>, bytes: nat, pages: nat, seen: nat)

  ghost predicate Sweeping(w: Sweep, trace: seq<Stop>, cursor: Token, keep: Key -> bool, maxBytes: nat, asked: seq<Attempt>,
                           tok: KeyToken)
  {
    && Covering(trace, cursor, w.position, w.keys, keep, asked, tok)
    && w.bytes == Cost(w.keys) <= maxBytes && w.pages == |trace| && w.seen == |Listed(trace)|
  }

  lemma {:induction false} AnswerCovers(trace: seq<Stop>, a: Attempt, cursor: Token, position: Token, maxKeys: nat,
                                        page: KeyPage, keys: seq<Key>, keep: Key -> bool, asked: seq<Attempt>,
                                        tok: KeyToken)
    requires AttemptValid(a, tok) && a.Reached? && a.leased && Owner(a.ns.assignments, position) == a.node
    requires PageExact(a.ns, a.node, position, a.now, StretchLimits(maxKeys, KEY_BYTES_PER_PAGE), page)
    requires Covering(trace, cursor, position, keys, keep, asked, tok)
    ensures var after := trace + [Stop(a.ns, a.node, a.now, position, PageEnd(page), page.keys)];
            && Covering(after, cursor, PageEnd(page), keys + Kept(page.keys, keep), keep, asked + [a], tok)
            && |Listed(after)| == |Listed(trace)| + |page.keys|
    ensures Cost(keys + Kept(page.keys, keep)) == Cost(keys) + Cost(Kept(page.keys, keep))
  {
    var stop := Stop(a.ns, a.node, a.now, position, PageEnd(page), page.keys);
    ExtendTrace(trace, stop, cursor, position, maxKeys, page, tok);
    KeptAppend(Listed(trace), page.keys, keep);
    CostAppend(keys, Kept(page.keys, keep));
    AnsweredIsUsed(asked, trace, stop, cursor);
  }

  /** One request of `scan`: refused, it is asked again; answered, the sweep goes on or the call ends. */
  method Ask(a: Attempt, w: Sweep, wanted: nat, keep: Key -> bool, maxBytes: nat, ghost trace: seq<Stop>, ghost cursor: Token,
             ghost asked: seq<Attempt>, ghost tok: KeyToken)
    returns (out: Option<ScanOutcome>, w': Sweep, ghost trace': seq<Stop>)
    requires AttemptValid(a, tok) && w.seen < wanted && Sweeping(w, trace, cursor, keep, maxBytes, asked, tok)
    ensures |trace'| <= |trace| + 1
    ensures out.None? ==> Sweeping(w', trace', cursor, keep, maxBytes, asked + [a], tok)
    ensures out.Some? ==> Ended(out.value, trace', cursor, keep, maxBytes, asked + [a], tok)
  {
    var maxKeys := if wanted - w.seen > MAX_U32 then MAX_U32 else wanted - w.seen;
    var answer := ListKeys(a, w.position, maxKeys, tok);
    if answer.None? {
      RefusedKeeps(a, w, keep, maxBytes, trace, cursor, asked, tok);
      return None, w, trace;
    }
    out, w', trace' := TakeAnswer(a, maxKeys, answer.value, w, keep, maxBytes, trace, cursor, asked, tok);
  }

  lemma RefusedKeeps(a: Attempt, w: Sweep, keep: Key -> bool, maxBytes: nat, trace: seq<Stop>, cursor: Token,
                     asked: seq<Attempt>, tok: KeyToken)
    requires Sweeping(w, trace, cursor, keep, maxBytes, asked, tok) && Refused(a, w.position)
    ensures Sweeping(w, trace, cursor, keep, maxBytes, asked + [a], tok)
  {
    RefusedIsUsed(asked, trace, a, cursor, w.position);
  }

  /** An answer adds its stretch to the trace. */
  method TakeAnswer(a: Attempt, ghost maxKeys: nat, page: KeyPage, w: Sweep, keep: Key -> bool, maxBytes: nat,
                    ghost trace: seq<Stop>, ghost cursor: Token, ghost asked: seq<Attempt>, ghost tok: KeyToken)
    returns (out: Option<ScanOutcome>, w': Sweep, ghost trace': seq<Stop>)
    requires AttemptValid(a, tok) && a.Reached? && a.leased && Owner(a.ns.assignments, w.position) == a.node
    requires Sweeping(w, trace, cursor, keep, maxBytes, asked, tok)
    requires PageExact(a.ns, a.node, w.position, a.now, StretchLimits(maxKeys, KEY_BYTES_PER_PAGE), page)
    ensures |trace'| == |trace| + 1
    ensures out.None? ==> Sweeping(w', trace', cursor, keep, maxBytes, asked + [a], tok)
    ensures out.Some? ==> Ended(out.value, trace', cursor, keep, maxBytes, asked + [a], tok)
  {
    AnswerCovers(trace, a, cursor, w.position, maxKeys, page, w.keys, keep, asked, tok);
    trace' := trace + [Stop(a.ns, a.node, a.now, w.position, PageEnd(page), page.keys)];
    out, w' := TakePage(page, w, keep, maxBytes, trace', cursor, asked + [a], tok);
  }

  /** The wanted keys of an answered page are kept, if they are not too many. */
  method TakePage(page: KeyPage, w: Sweep, keep: Key -> bool, maxBytes: nat, ghost trace: seq<Stop>, ghost cursor: Token,
                  ghost asked: seq<Attempt>, ghost tok: KeyToken)
    returns (out: Option<ScanOutcome>, w': Sweep)
    requires Covering(trace, cursor, PageEnd(page), w.keys + Kept(page.keys, keep), keep, asked, tok)
    requires Cost(w.keys + Kept(page.keys, keep)) == w.bytes + Cost(Kept(page.keys, keep)) && w.bytes <= maxBytes
    requires |trace| == w.pages + 1 && |Listed(trace)| == w.seen + page.count
    ensures out.None? ==> Sweeping(w', trace, cursor, keep, maxBytes, asked, tok)
    ensures out.Some? ==> Ended(out.value, trace, cursor, keep, maxBytes, asked, tok)
  {
    out, w' := None, w;
    var ok, keys, bytes := KeepWithin(page.keys, keep, maxBytes, w.keys, w.bytes);
    if !ok {
      EndsTooLarge(trace, cursor, PageEnd(page), w.keys + Kept(page.keys, keep), keep, maxBytes, asked, tok);
      out := Some(TooLarge);
    } else if page.next.None? {
      out := Some(Step(keys, None));
    } else {
      w' := Sweep(page.next.value, keys, bytes, w.pages + 1, w.seen + page.count);
    }
  }

  /** The call ended at the end of the ring, or with keys that cost too much. */
  ghost predicate Ended(out: ScanOutcome, trace: seq<Stop>, cursor: Token, keep: Key -> bool, maxBytes: nat,
                        asked: seq<Attempt>, tok: KeyToken)
  {
    match out
    case Step(keys, next) => next.None? && Covering(trace, cursor, RING_END, keys, keep, asked, tok) && Cost(keys) <= maxBytes
    case TooLarge =>
      && Cost(Kept(Listed(trace), keep)) > maxBytes
      && exists end: nat :: Covering(trace, cursor, end, Kept(Listed(trace), keep), keep, asked, tok)
    case DeadlineExceeded => false
  }

  lemma {:induction false} EndsTooLarge(trace: seq<Stop>, cursor: Token, end: nat, keys: seq<Key>, keep: Key -> bool,
                                        maxBytes: nat, asked: seq<Attempt>, tok: KeyToken)
    requires Covering(trace, cursor, end, keys, keep, asked, tok) && Cost(keys) > maxBytes
    ensures Ended(TooLarge, trace, cursor, keep, maxBytes, asked, tok)
  {
  }

  /** What a call of `scan` has done with the requests it made. */
  ghost predicate Scanned(out: ScanOutcome, trace: seq<Stop>, cursor: Token, count: nat, keep: Key -> bool, maxBytes: nat,
                          attempts: seq<Attempt>, tok: KeyToken)
  {
    && FromAttempts(trace, attempts) && EndsForCause(out, trace, cursor, count, keep, maxBytes, attempts)
    && (exists end: nat :: IsTrace(trace, cursor, end, tok))
    && (out.Step? ==>
          cursor < StepEnd(out) && IsTrace(trace, cursor, StepEnd(out), tok) && out.keys == Kept(Listed(trace), keep))
  }

  lemma EndedIsScanned(out: ScanOutcome, trace: seq<Stop>, cursor: Token, count: nat, keep: Key -> bool, maxBytes: nat,
                       attempts: seq<Attempt>, i: nat, tok: KeyToken)
    requires i <= |attempts| && Ended(out, trace, cursor, keep, maxBytes, attempts[..i], tok)
    requires |trace| <= SCAN_PAGES_PER_CALL
    ensures Scanned(out, trace, cursor, count, keep, maxBytes, attempts, tok)
  {
    assert FromAttempts(trace, attempts);
    if out.TooLarge? {
      var end: nat :| Covering(trace, cursor, end, Kept(Listed(trace), keep), keep, attempts[..i], tok);
      assert IsTrace(trace, cursor, end, tok);
    }
  }

  lemma SweptIsScanned(w: Sweep, trace: seq<Stop>, cursor: Token, count: nat, keep: Key -> bool, maxBytes: nat,
                       attempts: seq<Attempt>, i: nat, tok: KeyToken)
    requires i <= |attempts| && Sweeping(w, trace, cursor, keep, maxBytes, attempts[..i], tok)
    requires w.pages <= SCAN_PAGES_PER_CALL
    ensures w.pages == SCAN_PAGES_PER_CALL || w.seen >= Wanted(count) ==>
      Scanned(Step(w.keys, Some(w.position)), trace, cursor, count, keep, maxBytes, attempts, tok)
    ensures w.pages < SCAN_PAGES_PER_CALL && w.seen < Wanted(count) && i == |attempts| ==>
      Scanned(DeadlineExceeded, trace, cursor, count, keep, maxBytes, attempts, tok)
  {
    assert FromAttempts(trace, attempts) && IsTrace(trace, cursor, w.position, tok);
    assert w.seen > 0 ==> trace != [];
    if i == |attempts| { assert attempts[..i] == attempts; }
  }

  lemma OneMoreAsked(attempts: seq<Attempt>, i: nat)
    requires i < |attempts|
    ensures attempts[i] in attempts && attempts[..i + 1] == attempts[..i] + [attempts[i]]
  {
  }

  /** The loop of `scan`. The ghost trace records the answered stretches. */
  method WalkStretches(cursor: Token, count: nat, keep: Key -> bool, maxBytes: nat, attempts: seq<Attempt>,
                       ghost tok: KeyToken)
    returns (out: ScanOutcome, ghost trace: seq<Stop>)
    requires forall a :: a in attempts ==> AttemptValid(a, tok)
    ensures Scanned(out, trace, cursor, count, keep, maxBytes, attempts, tok)
  {
    trace := [];
    var w := Sweep(cursor, [], 0, 0, 0);
    var i := 0;
    while w.pages < SCAN_PAGES_PER_CALL && w.seen < Wanted(count) && i < |attempts|
      invariant i <= |attempts| && w.pages <= SCAN_PAGES_PER_CALL
      invariant Sweeping(w, trace, cursor, keep, maxBytes, attempts[..i], tok)
      decreases |attempts| - i
    {
      OneMoreAsked(attempts, i);
      var ended;
      ended, w, trace := Ask(attempts[i], w, Wanted(count), keep, maxBytes, trace, cursor, attempts[..i], tok);
      i := i + 1;
      if ended.Some? {
        EndedIsScanned(ended.value, trace, cursor, count, keep, maxBytes, attempts, i, tok);
        return ended.value, trace;
      }
    }
    SweptIsScanned(w, trace, cursor, count, keep, maxBytes, attempts, i, tok);
    if w.pages < SCAN_PAGES_PER_CALL && w.seen < Wanted(count) { return DeadlineExceeded, trace; }
    return Step(w.keys, Some(w.position)), trace;
  }

  ghost predicate StandsAt(trace: seq<Stop>, cursor: Token, position: nat) {
    position == if trace == [] then cursor else trace[|trace| - 1].end
  }

  lemma StaysUsed(a: Attempt, trace: seq<Stop>, stop: Stop, cursor: Token)
    requires Used(a, trace, cursor)
    ensures Used(a, trace + [stop], cursor)
  {
    if s :| s in trace && a == Reached(s.ns, s.node, s.now, true) {
      assert s in trace + [stop];
    } else if !Refused(a, cursor) {
      var s :| s in trace && s.end <= MAX_TOKEN && Refused(a, s.end);
      assert s in trace + [stop];
    }
  }

  lemma AnsweredIsUsed(attempts: seq<Attempt>, trace: seq<Stop>, stop: Stop, cursor: Token)
    requires AllUsed(attempts, trace, cursor)
    ensures AllUsed(attempts + [Reached(stop.ns, stop.node, stop.now, true)], trace + [stop], cursor)
  {
    forall a | a in attempts ensures Used(a, trace + [stop], cursor) {
      StaysUsed(a, trace, stop, cursor);
    }
    assert stop in trace + [stop];
  }

  lemma RefusedIsUsed(attempts: seq<Attempt>, trace: seq<Stop>, a: Attempt, cursor: Token, position: Token)
    requires AllUsed(attempts, trace, cursor) && StandsAt(trace, cursor, position) && Refused(a, position)
    ensures AllUsed(attempts + [a], trace, cursor)
  {
    assert trace != [] ==> trace[|trace| - 1] in trace;
  }

  /** `scan`: one step from a cursor. `attempts` are the requests it gets to make before its deadline; a refused
      one is asked again at the same token. */
  method ScanStep(cursor: Token, count: nat, keep: Key -> bool, maxBytes: nat, attempts: seq<Attempt>, ghost tok: KeyToken)
    returns (out: ScanOutcome)
    requires forall a :: a in attempts ==> AttemptValid(a, tok)
    ensures out.Step? ==> cursor < StepEnd(out) && StepExact(cursor, StepEnd(out), keep, out.keys, attempts, tok)
    ensures exists trace, end: nat :: && IsTrace(trace, cursor, end, tok) && FromAttempts(trace, attempts)
                                      && EndsForCause(out, trace, cursor, count, keep, maxBytes, attempts)
  {
    ghost var trace;
    out, trace := WalkStretches(cursor, count, keep, maxBytes, attempts, tok);
  }

  lemma {:induction false} ExtendTrace(trace: seq<Stop>, stop: Stop, cursor: nat, position: Token, maxKeys: nat,
                                       page: KeyPage, tok: KeyToken)
    requires IsTrace(trace, cursor, position, tok) && |stop.ns.assignments| > 0 && Indexed(stop.ns, tok)
    requires Owner(stop.ns.assignments, position) == stop.node && stop.start == position && stop.end == PageEnd(page)
    requires stop.keys == page.keys
    requires PageExact(stop.ns, stop.node, position, stop.now, StretchLimits(maxKeys, KEY_BYTES_PER_PAGE), page)
    ensures position < PageEnd(page) && IsTrace(trace + [stop], cursor, PageEnd(page), tok)
    ensures Listed(trace + [stop]) == Listed(trace) + page.keys
  {
    assert (trace + [stop])[..|trace|] == trace;
  }

  // ----- Exactness -----

  lemma {:induction false} LiveKeysCount(ns: NodeState, keys: seq<Key>, now: nat, k: Key)
    requires DistinctKeys(keys)
    ensures multiset(LiveKeys(ns, keys, now))[k] == if k in keys && KeyLive(ns, k, now) then 1 else 0
  {
    if keys != [] {
      LiveKeysCount(ns, keys[..|keys| - 1], now, k);
      assert keys == keys[..|keys| - 1] + [keys[|keys| - 1]];
    }
  }

  /** The key is in an owned bucket between i and j. */
  ghost predicate InBuckets(ns: NodeState, mine: seq<bool>, i: nat, j: nat, k: Key)
    requires |mine| == |ns.index| && j <= |ns.index|
  {
    exists x :: i <= x < j && mine[x] && k in ns.index[x].keys
  }

  /** A key is in at most one bucket. */
  lemma OneBucket(ns: NodeState, tok: KeyToken, k: Key, x: nat, y: nat)
    requires Indexed(ns, tok) && x < |ns.index| && y < |ns.index| && k in ns.index[x].keys && k in ns.index[y].keys
    ensures x == y && ns.index[x].token == tok(k)
  {
    assert ns.index[x].token == tok(k) == ns.index[y].token;
    assert IndexTokens(ns)[x] == IndexTokens(ns)[y];
  }

  lemma BucketsGrow(ns: NodeState, mine: seq<bool>, tok: KeyToken, k: Key, i: nat, j: nat)
    requires |mine| == |ns.index| && i < j <= |ns.index| && Indexed(ns, tok)
    ensures InBuckets(ns, mine, i, j, k) <==> InBuckets(ns, mine, i, j - 1, k) || (mine[j - 1] && k in ns.index[j - 1].keys)
    ensures !(InBuckets(ns, mine, i, j - 1, k) && k in ns.index[j - 1].keys)
  {
    if k in ns.index[j - 1].keys && InBuckets(ns, mine, i, j - 1, k) {
      var x :| i <= x < j - 1 && mine[x] && k in ns.index[x].keys;
      OneBucket(ns, tok, k, x, j - 1);
    }
  }

  /** Every live key of the owned buckets is gathered exactly once, and no other key at all. */
  lemma {:induction false} GatherCount(ns: NodeState, mine: seq<bool>, now: nat, i: nat, j: nat, tok: KeyToken, k: Key)
    requires |mine| == |ns.index| && i <= j <= |ns.index| && Indexed(ns, tok)
    ensures multiset(Gather(ns, mine, now, i, j))[k] == if InBuckets(ns, mine, i, j, k) && KeyLive(ns, k, now) then 1 else 0
  {
    if i < j {
      GatherCount(ns, mine, now, i, j - 1, tok, k);
      LiveKeysCount(ns, ns.index[j - 1].keys, now, k);
      BucketsGrow(ns, mine, tok, k, i, j);
    }
  }

  /** A stored key is in an owned bucket of a stretch exactly if the stretch holds its token and the node owns it. */
  lemma {:induction false} KeyPlace(ns: NodeState, node: NodeId, lo: nat, hi: nat, tok: KeyToken, k: Key)
    requires |ns.assignments| > 0 && lo <= hi && Indexed(ns, tok) && k in ns.records
    ensures InBuckets(ns, Mine(ns, node), CountBelow(IndexTokens(ns), lo), CountBelow(IndexTokens(ns), hi), k)
       <==> lo <= tok(k) < hi && Owner(ns.assignments, tok(k)) == node
  {
    var t := IndexTokens(ns);
    var i, j := CountBelow(t, lo), CountBelow(t, hi);
    var x :| 0 <= x < |ns.index| && k in ns.index[x].keys;
    assert t[x] == tok(k);
    BucketPlace(t, lo, x);
    BucketPlace(t, hi, x);
    if InBuckets(ns, Mine(ns, node), i, j, k) {
      var y :| i <= y < j && Mine(ns, node)[y] && k in ns.index[y].keys;
      OneBucket(ns, tok, k, x, y);
    }
  }

  lemma OwnedKeysCount(ns: NodeState, node: NodeId, now: nat, lo: nat, hi: nat, tok: KeyToken, k: Key)
    requires |ns.assignments| > 0 && lo <= hi && Indexed(ns, tok)
    ensures multiset(OwnedKeys(ns, node, now, lo, hi))[k]
         == if lo <= tok(k) < hi && Owner(ns.assignments, tok(k)) == node && KeyLive(ns, k, now) then 1 else 0
  {
    var t := IndexTokens(ns);
    CountBelowMonotone(t, lo, hi);
    GatherCount(ns, Mine(ns, node), now, CountBelow(t, lo), CountBelow(t, hi), tok, k);
    if KeyLive(ns, k, now) { KeyPlace(ns, node, lo, hi, tok, k); }
  }

  lemma {:induction false} BucketPlace(t: seq<Token>, bound: nat, x: nat)
    requires Increasing(t) && x < |t|
    ensures x < CountBelow(t, bound) <==> t[x] < bound
  {
    var n := CountBelow(t, bound);
    if n <= x {
      assert t[n] <= t[x];
    }
  }

  /** The key is live at its owner whenever its owner is asked. */
  ghost predicate StaysLive(trace: seq<Stop>, tok: KeyToken, k: Key) {
    forall s :: s in trace && |s.ns.assignments| > 0 && Owner(s.ns.assignments, tok(k)) == s.node ==> KeyLive(s.ns, k, s.now)
  }

  lemma {:induction false} TraceCount(trace: seq<Stop>, lo: nat, hi: nat, tok: KeyToken, k: Key)
    requires IsTrace(trace, lo, hi, tok) && StaysLive(trace, tok, k)
    ensures lo <= hi
    ensures multiset(Listed(trace))[k] == if lo <= tok(k) < hi then 1 else 0
  {
    if trace != [] {
      var init, last := trace[..|trace| - 1], trace[|trace| - 1];
      assert last in trace;
      TraceCount(init, lo, last.start, tok, k);
      OwnedKeysCount(last.ns, last.node, last.now, last.start, last.end, tok, k);
    }
  }

  lemma {:induction false} KeptCount(keys: seq<Key>, keep: Key -> bool, k: Key)
    ensures multiset(Kept(keys, keep))[k] == if keep(k) then multiset(keys)[k] else 0
  {
    if keys != [] {
      KeptCount(keys[..|keys| - 1], keep, k);
      assert keys == keys[..|keys| - 1] + [keys[|keys| - 1]];
    }
  }

  /** A completed scan from token 0, over any number of calls and under any topology for each stretch, returns
      every kept key that stays live throughout exactly once. */
  lemma {:induction false} ScanIsExact(trace: seq<Stop>, keep: Key -> bool, tok: KeyToken, k: Key)
    requires IsTrace(trace, 0, RING_END, tok) && StaysLive(trace, tok, k) && keep(k)
    ensures multiset(Kept(Listed(trace), keep))[k] == 1
  {
    TraceCount(trace, 0, RING_END, tok, k);
    KeptCount(Listed(trace), keep, k);
  }

  /** And it returns nothing else than kept keys that were live at their owner when their stretch was read. */
  lemma {:induction false} ScanIsSound(trace: seq<Stop>, lo: nat, hi: nat, keep: Key -> bool, tok: KeyToken, k: Key)
    requires IsTrace(trace, lo, hi, tok) && k in Kept(Listed(trace), keep)
    ensures keep(k)
    ensures exists s :: && s in trace && s.start <= tok(k) < s.end && |s.ns.assignments| > 0
                        && Owner(s.ns.assignments, tok(k)) == s.node && KeyLive(s.ns, k, s.now)
  {
    KeptCount(Listed(trace), keep, k);
    assert k in Listed(trace);
    ListedIsLive(trace, lo, hi, tok, k);
  }

  lemma {:induction false} ListedIsLive(trace: seq<Stop>, lo: nat, hi: nat, tok: KeyToken, k: Key)
    requires IsTrace(trace, lo, hi, tok) && k in Listed(trace)
    ensures exists s :: && s in trace && s.start <= tok(k) < s.end && |s.ns.assignments| > 0
                        && Owner(s.ns.assignments, tok(k)) == s.node && KeyLive(s.ns, k, s.now)
  {
    var init, last := trace[..|trace| - 1], trace[|trace| - 1];
    assert last in trace;
    if k in Listed(init) {
      ListedIsLive(init, lo, last.start, tok, k);
    } else {
      OwnedKeysCount(last.ns, last.node, last.now, last.start, last.end, tok, k);
      assert multiset(last.keys)[k] > 0;
    }
  }

  // ----- Whole scans -----

  /** One call of `scan` that returned: where it began and ended, its keys, and whom it asked. */
  datatype Call = Call(cursor: nat, end: nat, keys: seq<Key>, attempts: seq<Attempt>)

  /** Calls that each continue at the cursor the one before returned. */
  ghost predicate Chained(calls: seq<Call>, lo: nat, hi: nat, keep: Key -> bool, tok: KeyToken) {
    if calls == [] then lo == hi
    else
      var last := calls[|calls| - 1];
      && Chained(calls[..|calls| - 1], lo, last.cursor, keep, tok) && last.end == hi
      && StepExact(last.cursor, last.end, keep, last.keys, last.attempts, tok)
  }

  function AllKeys(calls: seq<Call>): seq<Key> {
    if calls == [] then [] else AllKeys(calls[..|calls| - 1]) + calls[|calls| - 1].keys
  }

  function AllAttempts(calls: seq<Call>): seq<Attempt> {
    if calls == [] then [] else AllAttempts(calls[..|calls| - 1]) + calls[|calls| - 1].attempts
  }

  /** Chained calls are one exact step from the first cursor to the last. */
  lemma {:induction false} CallsAreOneStep(calls: seq<Call>, lo: nat, hi: nat, keep: Key -> bool, tok: KeyToken)
    requires Chained(calls, lo, hi, keep, tok)
    ensures StepExact(lo, hi, keep, AllKeys(calls), AllAttempts(calls), tok)
  {
    if calls == [] {
      assert IsTrace([], lo, hi, tok) && FromAttempts([], AllAttempts(calls));
    } else {
      var init, last := calls[..|calls| - 1], calls[|calls| - 1];
      CallsAreOneStep(init, lo, last.cursor, keep, tok);
      var a :| && IsTrace(a, lo, last.cursor, tok) && AllKeys(init) == Kept(Listed(a), keep)
               && FromAttempts(a, AllAttempts(init));
      var b :| IsTrace(b, last.cursor, hi, tok) && last.keys == Kept(Listed(b), keep) && FromAttempts(b, last.attempts);
      TracesJoin(a, b, lo, last.cursor, hi, tok);
      KeptAppend(Listed(a), Listed(b), keep);
      assert FromAttempts(a + b, AllAttempts(calls));
    }
  }

  /** The key is live at whichever leased node owns it, whenever that node is asked. Nodes without a lease answer nothing,
      so what they hold does not matter. */
  ghost predicate LiveWheneverAsked(attempts: seq<Attempt>, tok: KeyToken, k: Key) {
    forall a :: a in attempts && a.Reached? && a.leased && |a.ns.assignments| > 0 && Owner(a.ns.assignments, tok(k)) == a.node
             ==> KeyLive(a.ns, k, a.now)
  }

  /** A scan from token 0 to the end of the ring, over any number of calls with any topology at any request, returns
      every wanted key that stays live throughout exactly once. */
  lemma {:induction false} CompletedScanIsExact(calls: seq<Call>, keep: Key -> bool, tok: KeyToken, k: Key)
    requires Chained(calls, 0, RING_END, keep, tok) && LiveWheneverAsked(AllAttempts(calls), tok, k) && keep(k)
    ensures multiset(AllKeys(calls))[k] == 1
  {
    CallsAreOneStep(calls, 0, RING_END, keep, tok);
    var trace :| && IsTrace(trace, 0, RING_END, tok) && AllKeys(calls) == Kept(Listed(trace), keep)
                 && FromAttempts(trace, AllAttempts(calls));
    forall s: Stop | s in trace && |s.ns.assignments| > 0 && Owner(s.ns.assignments, tok(k)) == s.node
      ensures KeyLive(s.ns, k, s.now)
    {
      assert Reached(s.ns, s.node, s.now, true) in AllAttempts(calls);
    }
    ScanIsExact(trace, keep, tok, k);
  }
}
