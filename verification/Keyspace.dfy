/**
 Paging through the live keys a node owns, in token order. A page ends only between tokens, so its end
 is a token alone and means the same in every topology.
 */
module Keyspace {
  import opened Ring
  import opened Topology

  type Key = string

  const RING_END: nat := MAX_TOKEN + 1

  datatype Record = Record(deleted: bool, expiresAt: Option<nat>)

  predicate IsLive(r: Record, now: nat) {
    !r.deleted && !(r.expiresAt.Some? && now >= r.expiresAt.value)
  }

  /** A record that is not deleted is live exactly before its deadline, if it has one. */
  lemma LiveUntilDeadline(r: Record, now: nat)
    ensures IsLive(r, now) <==> !r.deleted && (r.expiresAt.Some? ==> now < r.expiresAt.value)
  {
  }

  /** One entry of the node's token index: the keys that share a token. */
  datatype Bucket = Bucket(token: Token, keys: seq<Key>)

  datatype NodeState = NodeState(assignments: seq<Assignment>, index: seq<Bucket>, records: map<Key, Record>)

  type KeyToken = Key -> Token

  function IndexTokens(ns: NodeState): (r: seq<Token>)
    ensures |r| == |ns.index| && forall i :: 0 <= i < |r| ==> r[i] == ns.index[i].token
  {
    seq(|ns.index|, i requires 0 <= i < |ns.index| => ns.index[i].token)
  }

  ghost predicate DistinctKeys(s: seq<Key>) {
    forall i, j :: 0 <= i < j < |s| ==> s[i] != s[j]
  }

  /** The token index mirrors the records: what `debug_assert_index` checks. */
  ghost predicate Indexed(ns: NodeState, tok: KeyToken) {
    && Increasing(IndexTokens(ns))
    && (forall i :: 0 <= i < |ns.index| ==> DistinctKeys(ns.index[i].keys))
    && (forall i, k :: 0 <= i < |ns.index| && k in ns.index[i].keys ==> tok(k) == ns.index[i].token && k in ns.records)
    && (forall k :: k in ns.records ==> exists i :: 0 <= i < |ns.index| && k in ns.index[i].keys)
  }

  datatype PageLimits = PageLimits(maxKeys: nat, maxBytes: nat, maxExamined: nat, countOnly: bool, oneStretch: bool)

  datatype KeyPage = KeyPage(keys: seq<Key>, count: nat, next: Option<Token>)

  // ----- What a page holds -----

  predicate KeyLive(ns: NodeState, k: Key, now: nat) {
    k in ns.records && IsLive(ns.records[k], now)
  }

  function LiveKeys(ns: NodeState, keys: seq<Key>, now: nat): seq<Key> {
    if keys == [] then []
    else
      var rest := LiveKeys(ns, keys[..|keys| - 1], now);
      if KeyLive(ns, keys[|keys| - 1], now) then rest + [keys[|keys| - 1]] else rest
  }

  /** Which buckets of the index the node owns. */
  function Mine(ns: NodeState, node: NodeId): (r: seq<bool>)
    requires |ns.assignments| > 0
    ensures |r| == |ns.index|
    ensures forall i :: 0 <= i < |r| ==> r[i] == (Owner(ns.assignments, ns.index[i].token) == node)
  {
    seq(|ns.index|, i requires 0 <= i < |ns.index| => Owner(ns.assignments, ns.index[i].token) == node)
  }

  /** The live keys of the owned buckets i to j, in token order. */
  function Gather(ns: NodeState, mine: seq<bool>, now: nat, i: nat, j: nat): seq<Key>
    requires |mine| == |ns.index| && i <= j <= |ns.index|
  {
    if i == j then []
    else Gather(ns, mine, now, i, j - 1) + if mine[j - 1] then LiveKeys(ns, ns.index[j - 1].keys, now) else []
  }

  function Bytes(keys: seq<Key>): nat {
    if keys == [] then 0 else Bytes(keys[..|keys| - 1]) + |keys[|keys| - 1]|
  }

  /** The entries, live or not, of the owned buckets i to j. */
  function Entries(ns: NodeState, mine: seq<bool>, i: nat, j: nat): nat
    requires |mine| == |ns.index| && i <= j <= |ns.index|
  {
    if i == j then 0 else Entries(ns, mine, i, j - 1) + if mine[j - 1] then |ns.index[j - 1].keys| else 0
  }

  /** The live owned keys with tokens from lo up to but excluding hi. */
  function OwnedKeys(ns: NodeState, node: NodeId, now: nat, lo: nat, hi: nat): seq<Key>
    requires |ns.assignments| > 0 && lo <= hi
  {
    CountBelowMonotone(IndexTokens(ns), lo, hi);
    Gather(ns, Mine(ns, node), now, CountBelow(IndexTokens(ns), lo), CountBelow(IndexTokens(ns), hi))
  }

  lemma {:induction false} CountBelowMonotone(b: seq<Token>, lo: nat, hi: nat)
    requires lo <= hi
    ensures CountBelow(b, lo) <= CountBelow(b, hi)
  {
    if CountBelow(b, hi) < |b| {
      assert b[CountBelow(b, hi)] >= hi;
    }
  }

  function PageEnd(p: KeyPage): nat {
    if p.next.Some? then p.next.value else RING_END
  }

  // ----- Segments -----

  /** The stretch of tokens from a position that shares its owner, as the page loop computes it. */
  function Segment(s: seq<Assignment>, position: Token): (r: (Token, NodeId))
    requires |s| > 0
  {
    var k := CountBelow(Tokens(s), position);
    if k < |s| then (s[k].token, s[k].node) else (MAX_TOKEN, s[0].node)
  }

  lemma SegmentSharesOwner(s: seq<Assignment>, position: Token, t: Token)
    requires |s| > 0 && position <= t <= Segment(s, position).0
    ensures Owner(s, t) == Segment(s, position).1
  {
    CountBelowIs(Tokens(s), t, CountBelow(Tokens(s), position));
  }

  /** The buckets of a segment are all the node's or all another's. */
  lemma {:induction false} SegmentBuckets(ns: NodeState, node: NodeId, position: Token)
    requires |ns.assignments| > 0 && Increasing(IndexTokens(ns))
    ensures forall j :: CountBelow(IndexTokens(ns), position) <= j < |ns.index|
                        && ns.index[j].token <= Segment(ns.assignments, position).0
                    ==> Mine(ns, node)[j] == (Segment(ns.assignments, position).1 == node)
  {
    var i, end := CountBelow(IndexTokens(ns), position), Segment(ns.assignments, position).0;
    forall j | i <= j < |ns.index| && ns.index[j].token <= end
      ensures Mine(ns, node)[j] == (Segment(ns.assignments, position).1 == node)
    {
      assert IndexTokens(ns)[i] <= IndexTokens(ns)[j];
      SegmentSharesOwner(ns.assignments, position, ns.index[j].token);
    }
  }

  lemma SegmentAdvances(s: seq<Assignment>, position: Token)
    requires |s| > 0
    ensures position <= Segment(s, position).0
  {
  }

  // ----- The page loop -----

  datatype Progress = Progress(examined: nat, bytes: nat, count: nat, keys: seq<Key>)

  predicate PageFull(p: Progress, limits: PageLimits) {
    p.examined >= limits.maxExamined || p.count >= limits.maxKeys || p.bytes >= limits.maxBytes
  }

  /** The progress accounts for exactly these keys. */
  predicate Accounts(p: Progress, limits: PageLimits, listed: seq<Key>) {
    && p.count == |listed| && p.keys == (if limits.countOnly then [] else listed)
    && p.bytes == if limits.countOnly then 0 else Bytes(listed)
  }

  /** One live key more. */
  function Counted(p: Progress, limits: PageLimits, key: Key): Progress {
    var q := p.(count := p.count + 1);
    if limits.countOnly then q else q.(bytes := q.bytes + |key|, keys := q.keys + [key])
  }

  lemma CountedAccounts(p: Progress, limits: PageLimits, listed: seq<Key>, key: Key)
    requires Accounts(p, limits, listed)
    ensures Accounts(Counted(p, limits, key), limits, listed + [key])
  {
    assert (listed + [key])[..|listed|] == listed;
  }

  lemma {:induction false} LiveKeysGrow(ns: NodeState, keys: seq<Key>, now: nat, i: nat, before: seq<Key>)
    requires i < |keys|
    ensures before + LiveKeys(ns, keys[..i + 1], now)
         == before + LiveKeys(ns, keys[..i], now) + if KeyLive(ns, keys[i], now) then [keys[i]] else []
  {
    assert keys[..i + 1][..i] == keys[..i];
  }

  /** One bucket is always taken whole. */
  method TakeBucket(ns: NodeState, keys: seq<Key>, now: nat, limits: PageLimits, p: Progress, ghost before: seq<Key>)
    returns (q: Progress)
    requires Accounts(p, limits, before)
    ensures Accounts(q, limits, before + LiveKeys(ns, keys, now)) && q.examined == p.examined + |keys|
  {
    q := p;
    ghost var listed := before;
    for i := 0 to |keys|
      invariant Accounts(q, limits, listed) && q.examined == p.examined + i
      invariant listed == before + LiveKeys(ns, keys[..i], now)
    {
      LiveKeysGrow(ns, keys, now, i, before);
      q := q.(examined := q.examined + 1);
      if KeyLive(ns, keys[i], now) {
        CountedAccounts(q, limits, listed, keys[i]);
        q, listed := Counted(q, limits, keys[i]), listed + [keys[i]];
      }
    }
    assert keys[..|keys|] == keys;
  }

  /** The most keys any token has, and the most bytes. */
  ghost function Widest(index: seq<Bucket>): (w: nat)
    ensures w >= 1
  {
    if index == [] then 1 else Max(Widest(index[..|index| - 1]), |index[|index| - 1].keys|)
  }

  ghost function Heaviest(index: seq<Bucket>): (w: nat)
    ensures w >= 1
  {
    if index == [] then 1 else Max(Heaviest(index[..|index| - 1]), Bytes(index[|index| - 1].keys))
  }

  lemma {:induction false} BucketsFit(index: seq<Bucket>, i: nat)
    requires i < |index|
    ensures |index[i].keys| <= Widest(index) && Bytes(index[i].keys) <= Heaviest(index)
  {
    if i < |index| - 1 { BucketsFit(index[..|index| - 1], i); }
  }

  /** No limit is exceeded by more than finishing a token can add. */
  ghost predicate Capped(ns: NodeState, limits: PageLimits, p: Progress) {
    && p.count < limits.maxKeys + Widest(ns.index) && p.bytes < limits.maxBytes + Heaviest(ns.index)
    && (limits.maxExamined >= 1 ==> p.examined < limits.maxExamined + Widest(ns.index))
  }

  lemma {:induction false} LiveKeysFit(ns: NodeState, keys: seq<Key>, now: nat)
    ensures |LiveKeys(ns, keys, now)| <= |keys| && Bytes(LiveKeys(ns, keys, now)) <= Bytes(keys)
  {
    if keys != [] {
      var init, last := keys[..|keys| - 1], keys[|keys| - 1];
      LiveKeysFit(ns, init, now);
      var live := LiveKeys(ns, init, now);
      if KeyLive(ns, last, now) { assert (live + [last])[..|live|] == live; }
    }
  }

  lemma {:induction false} BytesAppend(a: seq<Key>, b: seq<Key>)
    ensures Bytes(a + b) == Bytes(a) + Bytes(b)
  {
    if b == [] {
      assert a + b == a;
    } else {
      BytesAppend(a, b[..|b| - 1]);
      assert (a + b)[..|a + b| - 1] == a + b[..|b| - 1];
    }
  }

  /** The progress accounts for the buckets a to i after this many turns, and went no further than it may. */
  ghost predicate Tallied(ns: NodeState, mine: seq<bool>, now: nat, limits: PageLimits, a: nat, i: nat, turns: nat,
                          p: Progress)
  {
    && |mine| == |ns.index| && a <= i <= |ns.index| && Capped(ns, limits, p)
    && Accounts(p, limits, Gather(ns, mine, now, a, i)) && p.examined == turns + Entries(ns, mine, a, i)
  }

  lemma {:induction false} BucketIsCapped(ns: NodeState, now: nat, limits: PageLimits, i: nat, p: Progress, q: Progress,
                                          listed: seq<Key>)
    requires i < |ns.index| && !PageFull(p, limits) && Accounts(p, limits, listed)
    requires q.examined == p.examined + |ns.index[i].keys|
    requires Accounts(q, limits, listed + LiveKeys(ns, ns.index[i].keys, now))
    ensures Capped(ns, limits, q)
  {
    LiveKeysFit(ns, ns.index[i].keys, now);
    BucketsFit(ns.index, i);
    BytesAppend(listed, LiveKeys(ns, ns.index[i].keys, now));
  }

  lemma {:induction false} TallyBucket(ns: NodeState, mine: seq<bool>, now: nat, limits: PageLimits, a: nat, i: nat,
                                       turns: nat, p: Progress, q: Progress)
    requires i < |ns.index| && Tallied(ns, mine, now, limits, a, i, turns, p) && mine[i] && !PageFull(p, limits)
    requires q.examined == p.examined + |ns.index[i].keys|
    requires Accounts(q, limits, Gather(ns, mine, now, a, i) + LiveKeys(ns, ns.index[i].keys, now))
    ensures Tallied(ns, mine, now, limits, a, i + 1, turns, q)
  {
    BucketIsCapped(ns, now, limits, i, p, q, Gather(ns, mine, now, a, i));
  }

  /** The buckets of one owned segment, from index i on. Stops in front of a bucket when the page is full. */
  method TakeSegment(ns: NodeState, ghost mine: seq<bool>, now: nat, limits: PageLimits, segmentEnd: Token, ghost a: nat,
                     ghost turns: nat, i0: nat, p: Progress)
    returns (i: nat, q: Progress)
    requires Tallied(ns, mine, now, limits, a, i0, turns, p)
    requires forall j :: i0 <= j < |ns.index| && ns.index[j].token <= segmentEnd ==> mine[j]
    ensures i0 <= i <= |ns.index| && Tallied(ns, mine, now, limits, a, i, turns, q)
    ensures i < |ns.index| && ns.index[i].token <= segmentEnd ==> PageFull(q, limits)
    ensures i == i0 ==> q == p
    ensures forall j :: i0 <= j < i ==> ns.index[j].token <= segmentEnd
  {
    i, q := i0, p;
    while i < |ns.index| && ns.index[i].token <= segmentEnd && !PageFull(q, limits)
      invariant i0 <= i <= |ns.index| && Tallied(ns, mine, now, limits, a, i, turns, q)
      invariant i == i0 ==> q == p
      invariant forall j :: i0 <= j < i ==> ns.index[j].token <= segmentEnd
    {
      var next := TakeBucket(ns, ns.index[i].keys, now, limits, q, Gather(ns, mine, now, a, i));
      TallyBucket(ns, mine, now, limits, a, i, turns, q, next);
      i, q := i + 1, next;
    }
  }

  /** Buckets of a segment another node owns hold nothing for this page. */
  lemma {:induction false} GatherSkips(ns: NodeState, mine: seq<bool>, now: nat, a: nat, i: nat, j: nat)
    requires |mine| == |ns.index| && a <= i <= j <= |ns.index|
    requires forall x :: i <= x < j ==> !mine[x]
    ensures Gather(ns, mine, now, a, j) == Gather(ns, mine, now, a, i) && Entries(ns, mine, a, j) == Entries(ns, mine, a, i)
  {
    if i < j {
      GatherSkips(ns, mine, now, a, i, j - 1);
    }
  }

  /** The limits under which every page makes progress. */
  predicate Progressive(limits: PageLimits) {
    limits.maxKeys >= 1 && limits.maxBytes >= 1 && limits.maxExamined >= 2
  }

  /** What a page promises: it lists exactly the live owned keys from its start to its end in token order; a
      one-stretch page covers only tokens the node owns; and it ends past its start. */
  ghost predicate PageExact(ns: NodeState, node: NodeId, start: Token, now: nat, limits: PageLimits, page: KeyPage)
    requires |ns.assignments| > 0
  {
    && start <= PageEnd(page)
    && page.count == |OwnedKeys(ns, node, now, start, PageEnd(page))|
    && page.keys == (if limits.countOnly then [] else OwnedKeys(ns, node, now, start, PageEnd(page)))
    && (limits.oneStretch ==> OwnsStretch(ns, node, start, PageEnd(page)))
    && (Progressive(limits) && (limits.oneStretch ==> Owner(ns.assignments, start) == node) ==> start < PageEnd(page))
  }

  ghost predicate OwnsStretch(ns: NodeState, node: NodeId, lo: nat, hi: nat)
    requires |ns.assignments| > 0
  {
    forall t: Token :: lo <= t < hi ==> Owner(ns.assignments, t) == node
  }

  /** The segment ends from lo up to hi. */
  function Crossed(s: seq<Assignment>, lo: nat, hi: nat): set<Token> {
    set a | a in s && lo <= a.token < hi :: a.token
  }

  /** What a page from lo to hi has examined: the segments it left behind and the entries of its own buckets. */
  ghost function Examined(ns: NodeState, node: NodeId, lo: nat, hi: nat): nat
    requires |ns.assignments| > 0 && lo <= hi
  {
    CountBelowMonotone(IndexTokens(ns), lo, hi);
    |Crossed(ns.assignments, lo, hi)|
      + Entries(ns, Mine(ns, node), CountBelow(IndexTokens(ns), lo), CountBelow(IndexTokens(ns), hi))
  }

  /** Why a page may end before the ring does: the next token is another node's and the page may not jump over it, or one
      of its limits is reached. The segment it stands in counts as examined. */
  ghost predicate MayStop(ns: NodeState, node: NodeId, start: Token, limits: PageLimits, end: nat, count: nat, bytes: nat)
    requires |ns.assignments| > 0 && start <= end
  {
    || end == RING_END
    || (limits.oneStretch && end <= MAX_TOKEN && Owner(ns.assignments, end) != node)
    || count >= limits.maxKeys || bytes >= limits.maxBytes || Examined(ns, node, start, end) + 1 >= limits.maxExamined
  }

  lemma CrossedGrows(s: seq<Assignment>, lo: nat, hi: nat, hi': nat)
    requires hi <= hi'
    ensures |Crossed(s, lo, hi)| <= |Crossed(s, lo, hi')|
  {
    var a, b := Crossed(s, lo, hi), Crossed(s, lo, hi');
    assert b == a + (b - a);
  }

  /** From a position to the end of its segment there is one segment end. */
  lemma OneEndInside(s: seq<Assignment>, position: Token, i: nat)
    requires Sorted(s) && i < |s| && position <= s[i].token <= Segment(s, position).0
    ensures s[i].token == Segment(s, position).0
  {
    var k := CountBelow(Tokens(s), position);
    assert Tokens(s)[i] == s[i].token && k <= i;
    assert k < i ==> Before(s[k], s[i]);
  }

  lemma OneEnd(s: seq<Assignment>, position: Token)
    requires Sorted(s) && |s| > 0 && Segment(s, position).0 < MAX_TOKEN
    ensures Crossed(s, position, Segment(s, position).0 + 1) == {Segment(s, position).0}
  {
    var end := Segment(s, position).0;
    var inside := Crossed(s, position, end + 1);
    assert s[CountBelow(Tokens(s), position)] in s;
    assert end in inside;
    forall t | t in inside ensures t == end {
      var i :| 0 <= i < |s| && s[i].token == t;
      OneEndInside(s, position, i);
    }
  }

  /** Leaving a segment crosses one more segment end. */
  lemma CrossOne(s: seq<Assignment>, lo: nat, position: Token)
    requires Sorted(s) && |s| > 0 && lo <= position && Segment(s, position).0 < MAX_TOKEN
    ensures |Crossed(s, lo, Segment(s, position).0 + 1)| == |Crossed(s, lo, position)| + 1
  {
    SegmentAdvances(s, position);
    OneEnd(s, position);
    CrossedGrowsByOne(s, lo, position, Segment(s, position).0);
  }

  lemma CrossedGrowsByOne(s: seq<Assignment>, lo: nat, position: Token, end: Token)
    requires lo <= position <= end && Crossed(s, position, end + 1) == {end}
    ensures |Crossed(s, lo, end + 1)| == |Crossed(s, lo, position)| + 1
  {
    var before, after := Crossed(s, lo, position), Crossed(s, lo, end + 1);
    assert after == before + Crossed(s, position, end + 1);
    AddOne(before, end);
  }

  lemma AddOne(s: set<Token>, t: Token)
    requires t !in s
    ensures |s + {t}| == |s| + 1
  {
  }

  /** The loop invariant between segments. */
  ghost predicate AtSegment(ns: NodeState, node: NodeId, start: Token, now: nat, limits: PageLimits, position: Token, i: nat,
                            p: Progress)
    requires |ns.assignments| > 0
  {
    && start <= position && i == CountBelow(IndexTokens(ns), position)
    && Tallied(ns, Mine(ns, node), now, limits, CountBelow(IndexTokens(ns), start), i,
               |Crossed(ns.assignments, start, position)|, p)
    && (position == start ==> p == Progress(0, 0, 0, [])) && (position != start ==> p.examined < limits.maxExamined)
    && (limits.oneStretch ==> OwnsStretch(ns, node, start, position))
  }

  lemma StretchGrows(ns: NodeState, node: NodeId, start: Token, position: Token, end: nat)
    requires |ns.assignments| > 0 && start <= position && end <= Segment(ns.assignments, position).0 + 1
    requires OwnsStretch(ns, node, start, position) && Segment(ns.assignments, position).1 == node
    ensures OwnsStretch(ns, node, start, end)
  {
    forall t: Token | start <= t < end ensures Owner(ns.assignments, t) == node {
      if position <= t {
        SegmentSharesOwner(ns.assignments, position, t);
      }
    }
  }

  /** The progress is a page that ends at `end`, which may be one past the last token. */
  ghost predicate PageReady(ns: NodeState, node: NodeId, start: Token, now: nat, limits: PageLimits, p: Progress, end: nat,
                            i: nat)
    requires |ns.assignments| > 0
  {
    && start <= end <= RING_END
    && CountBelow(IndexTokens(ns), start) <= i == CountBelow(IndexTokens(ns), end)
    && Accounts(p, limits, Gather(ns, Mine(ns, node), now, CountBelow(IndexTokens(ns), start), i))
    && (limits.oneStretch ==> OwnsStretch(ns, node, start, end))
    && MayStop(ns, node, start, limits, end, p.count, p.bytes) && Capped(ns, limits, p)
    && (start < end || !Progressive(limits) || (limits.oneStretch && Owner(ns.assignments, start) != node))
  }

  method FindSegment(s: seq<Assignment>, position: Token) returns (segmentEnd: Token, owner: NodeId)
    requires Sorted(s) && |s| > 0
    ensures (segmentEnd, owner) == Segment(s, position) && position <= segmentEnd
    ensures Owner(s, position) == owner
  {
    var index := PartitionPoint(s, position);
    segmentEnd, owner := MAX_TOKEN, s[0].node;
    if index < |s| {
      segmentEnd, owner := s[index].token, s[index].node;
    }
    SegmentSharesOwner(s, position, position);
  }

  /** The segment that ends at segmentEnd is dealt with. */
  ghost predicate Behind(ns: NodeState, node: NodeId, start: Token, now: nat, limits: PageLimits, position: Token,
                         segmentEnd: Token, i: nat, p: Progress)
    requires |ns.assignments| > 0
  {
    && start <= position <= segmentEnd && Segment(ns.assignments, position).0 == segmentEnd
    && i == CountBelow(IndexTokens(ns), segmentEnd + 1)
    && Tallied(ns, Mine(ns, node), now, limits, CountBelow(IndexTokens(ns), start), i,
               |Crossed(ns.assignments, start, position)| + 1, p)
    && (limits.oneStretch ==> OwnsStretch(ns, node, start, segmentEnd + 1))
  }

  /** What a turn leaves: a page that ends, or a position behind the segment. */
  ghost predicate Turned(ns: NodeState, node: NodeId, start: Token, now: nat, limits: PageLimits, position: Token, done: bool,
                         end: nat, i: nat, p: Progress)
    requires |ns.assignments| > 0
  {
    && (done ==> PageReady(ns, node, start, now, limits, p, end, i))
    && (!done ==> position < end <= MAX_TOKEN && AtSegment(ns, node, start, now, limits, end, i, p))
  }

  predicate EndsBehind(segmentEnd: Token, limits: PageLimits, p: Progress) {
    segmentEnd == MAX_TOKEN || p.examined >= limits.maxExamined
  }

  lemma LeaveSegment(ns: NodeState, node: NodeId, start: Token, now: nat, limits: PageLimits, position: Token,
                     segmentEnd: Token, i: nat, p: Progress)
    requires Sorted(ns.assignments) && |ns.assignments| > 0
    requires Behind(ns, node, start, now, limits, position, segmentEnd, i, p)
    ensures Turned(ns, node, start, now, limits, position, EndsBehind(segmentEnd, limits, p), segmentEnd + 1, i, p)
  {
    if segmentEnd < MAX_TOKEN { CrossOne(ns.assignments, start, position); }
  }

  /** A page of one stretch ends where another node's segment begins. */
  lemma StretchEnds(ns: NodeState, node: NodeId, start: Token, now: nat, limits: PageLimits, position: Token, i: nat,
                    p: Progress, p': Progress)
    requires |ns.assignments| > 0 && limits.oneStretch && Owner(ns.assignments, position) != node
    requires AtSegment(ns, node, start, now, limits, position, i, p) && p' == p.(examined := p.examined + 1)
    ensures PageReady(ns, node, start, now, limits, p', position, i)
  {
  }

  /** One turn of the page loop: the page ends, or it continues behind the segment. */
  method PageTurn(ns: NodeState, node: NodeId, ghost start: Token, now: nat, limits: PageLimits, position: Token, i: nat,
                  p: Progress)
    returns (done: bool, end: nat, i': nat, p': Progress)
    requires Sorted(ns.assignments) && |ns.assignments| > 0 && Increasing(IndexTokens(ns))
    requires AtSegment(ns, node, start, now, limits, position, i, p)
    ensures Turned(ns, node, start, now, limits, position, done, end, i', p')
  {
    var segmentEnd, owner := FindSegment(ns.assignments, position);
    if owner == node {
      done, end, i', p' := OwnedTurn(ns, node, start, now, limits, position, segmentEnd, i, p);
      return;
    }
    p' := p.(examined := p.examined + 1);
    if limits.oneStretch {
      StretchEnds(ns, node, start, now, limits, position, i, p, p');
      done, end, i' := true, position, i;
    } else {
      done, end, i' := SkipTurn(ns, node, start, now, limits, position, segmentEnd, i, p, p');
    }
  }

  /** The turn of another node's segment, which the page jumps over. */
  method SkipTurn(ns: NodeState, node: NodeId, ghost start: Token, now: nat, limits: PageLimits, position: Token,
                  segmentEnd: Token, i: nat, ghost p0: Progress, p: Progress)
    returns (done: bool, end: nat, i': nat)
    requires Sorted(ns.assignments) && |ns.assignments| > 0 && Increasing(IndexTokens(ns)) && !limits.oneStretch
    requires AtSegment(ns, node, start, now, limits, position, i, p0) && p == p0.(examined := p0.examined + 1)
    requires Segment(ns.assignments, position).0 == segmentEnd && Segment(ns.assignments, position).1 != node
    ensures Turned(ns, node, start, now, limits, position, done, end, i', p)
  {
    i' := CountBelow(IndexTokens(ns), Successor(segmentEnd));
    SkipSegment(ns, node, start, now, limits, position, i, i', p0, p);
    LeaveSegment(ns, node, start, now, limits, position, segmentEnd, i', p);
    return EndsBehind(segmentEnd, limits, p), Successor(segmentEnd), i';
  }

  /** The token behind, which may be one past the last. */
  function Successor(t: Token): nat {
    t + 1
  }

  /** The turn of an owned segment. */
  method OwnedTurn(ns: NodeState, node: NodeId, ghost start: Token, now: nat, limits: PageLimits, position: Token,
                   segmentEnd: Token, i: nat, p: Progress)
    returns (done: bool, end: nat, i': nat, p': Progress)
    requires Sorted(ns.assignments) && |ns.assignments| > 0 && Increasing(IndexTokens(ns))
    requires AtSegment(ns, node, start, now, limits, position, i, p)
    requires Segment(ns.assignments, position) == (segmentEnd, node)
    ensures Turned(ns, node, start, now, limits, position, done, end, i', p')
  {
    i', p' := OwnedSegment(ns, node, start, now, limits, position, segmentEnd, i, p);
    SegmentLeft(ns, node, start, now, limits, position, segmentEnd, i, i', p, p');
    done := InFront(ns, segmentEnd, i') || EndsBehind(segmentEnd, limits, p');
    end := TurnEnd(ns, segmentEnd, i');
  }

  /** Where the turn of an owned segment ends: at the bucket that is left, or behind the segment. */
  function TurnEnd(ns: NodeState, segmentEnd: Token, i: nat): nat {
    if InFront(ns, segmentEnd, i) then ns.index[i].token else segmentEnd + 1
  }

  /** Either exit leaves a page or a position. */
  lemma SegmentLeft(ns: NodeState, node: NodeId, start: Token, now: nat, limits: PageLimits, position: Token,
                    segmentEnd: Token, i: nat, i': nat, p: Progress, p': Progress)
    requires Sorted(ns.assignments) && |ns.assignments| > 0 && Increasing(IndexTokens(ns))
    requires AtSegment(ns, node, start, now, limits, position, i, p)
    requires Segment(ns.assignments, position) == (segmentEnd, node)
    requires Taken(ns, node, start, now, limits, position, segmentEnd, i, i', p, p')
    ensures Turned(ns, node, start, now, limits, position, InFront(ns, segmentEnd, i') || EndsBehind(segmentEnd, limits, p'),
                   TurnEnd(ns, segmentEnd, i'), i', p')
  {
    if InFront(ns, segmentEnd, i') {
      FullBeforeBucket(ns, node, start, now, limits, position, segmentEnd, i, i', p, p');
    } else {
      SegmentTaken(ns, node, start, now, limits, position, segmentEnd, i, i', p, p');
    }
  }

  /** The next bucket is still in the segment. */
  predicate InFront(ns: NodeState, segmentEnd: Token, i: nat) {
    i < |ns.index| && ns.index[i].token <= segmentEnd
  }

  /** The segment is taken up to i': as far as the page holds, or to its end. */
  ghost predicate Taken(ns: NodeState, node: NodeId, start: Token, now: nat, limits: PageLimits, position: Token,
                        segmentEnd: Token, i: nat, i': nat, p: Progress, p': Progress)
    requires |ns.assignments| > 0
  {
    && i <= i' <= |ns.index| && (i' == i ==> p' == p.(examined := p.examined + 1))
    && Tallied(ns, Mine(ns, node), now, limits, CountBelow(IndexTokens(ns), start), i',
               |Crossed(ns.assignments, start, position)| + 1, p')
    && if InFront(ns, segmentEnd, i') then PageFull(p', limits) else i' == CountBelow(IndexTokens(ns), segmentEnd + 1)
  }

  /** The first exit of an owned segment. */
  lemma FullBeforeBucket(ns: NodeState, node: NodeId, start: Token, now: nat, limits: PageLimits, position: Token,
                         segmentEnd: Token, i: nat, i': nat, p: Progress, p': Progress)
    requires |ns.assignments| > 0 && Increasing(IndexTokens(ns)) && AtSegment(ns, node, start, now, limits, position, i, p)
    requires Segment(ns.assignments, position) == (segmentEnd, node) && InFront(ns, segmentEnd, i')
    requires Taken(ns, node, start, now, limits, position, segmentEnd, i, i', p, p')
    ensures Turned(ns, node, start, now, limits, position, true, ns.index[i'].token, i', p')
  {
    StopsBetweenTokens(ns, node, start, limits, position, i, i', p, p');
  }

  /** And the second. */
  lemma SegmentTaken(ns: NodeState, node: NodeId, start: Token, now: nat, limits: PageLimits, position: Token,
                     segmentEnd: Token, i: nat, i': nat, p: Progress, p': Progress)
    requires Sorted(ns.assignments) && |ns.assignments| > 0 && AtSegment(ns, node, start, now, limits, position, i, p)
    requires Segment(ns.assignments, position) == (segmentEnd, node) && !InFront(ns, segmentEnd, i')
    requires Taken(ns, node, start, now, limits, position, segmentEnd, i, i', p, p')
    ensures Turned(ns, node, start, now, limits, position, EndsBehind(segmentEnd, limits, p'), segmentEnd + 1, i', p')
  {
    SegmentAdvances(ns.assignments, position);
    if limits.oneStretch { StretchGrows(ns, node, start, position, segmentEnd + 1); }
    LeaveSegment(ns, node, start, now, limits, position, segmentEnd, i', p');
  }

  /** A page that is full in front of a bucket ends at its token, past the start unless nothing fits a page. */
  lemma {:induction false} StopsBetweenTokens(ns: NodeState, node: NodeId, start: Token, limits: PageLimits,
                                              position: Token, i: nat, i': nat, p0: Progress, p': Progress)
    requires |ns.assignments| > 0 && Increasing(IndexTokens(ns)) && start <= position
    requires i == CountBelow(IndexTokens(ns), position) <= i' < |ns.index| && PageFull(p', limits)
    requires ns.index[i'].token <= Segment(ns.assignments, position).0 && Segment(ns.assignments, position).1 == node
    requires position == start ==> p0 == Progress(0, 0, 0, [])
    requires i' == i ==> p' == p0.(examined := p0.examined + 1)
    requires limits.oneStretch ==> OwnsStretch(ns, node, start, position)
    ensures position <= ns.index[i'].token && i' == CountBelow(IndexTokens(ns), ns.index[i'].token)
    ensures limits.oneStretch ==> OwnsStretch(ns, node, start, ns.index[i'].token)
    ensures start < ns.index[i'].token || !Progressive(limits)
    ensures |Crossed(ns.assignments, start, position)| <= |Crossed(ns.assignments, start, ns.index[i'].token)|
  {
    var t := IndexTokens(ns);
    CountBelowIs(t, t[i'], i');
    assert position <= t[i] <= t[i'] && (i' > i ==> t[i] < t[i']);
    CrossedGrows(ns.assignments, start, position, t[i']);
    if limits.oneStretch { StretchGrows(ns, node, start, position, ns.index[i'].token); }
  }

  /** It ends in front of a bucket with the page full, or has taken every bucket of the segment. */
  method OwnedSegment(ns: NodeState, node: NodeId, ghost start: Token, now: nat, limits: PageLimits, position: Token,
                      segmentEnd: Token, i: nat, p: Progress)
    returns (i': nat, p': Progress)
    requires |ns.assignments| > 0 && Increasing(IndexTokens(ns))
    requires Segment(ns.assignments, position) == (segmentEnd, node)
    requires AtSegment(ns, node, start, now, limits, position, i, p)
    ensures Taken(ns, node, start, now, limits, position, segmentEnd, i, i', p, p')
  {
    SegmentAdvances(ns.assignments, position);
    SegmentBuckets(ns, node, position);
    TurnIsTallied(ns, node, start, now, limits, position, i, p);
    i', p' := TakeSegment(ns, Mine(ns, node), now, limits, segmentEnd, CountBelow(IndexTokens(ns), start),
                          |Crossed(ns.assignments, start, position)| + 1, i, p.(examined := p.examined + 1));
    TakenTo(ns, position, segmentEnd, i, i');
  }

  /** A turn examines one more. */
  lemma {:induction false} TurnIsTallied(ns: NodeState, node: NodeId, start: Token, now: nat, limits: PageLimits,
                                         position: Token, i: nat, p: Progress)
    requires |ns.assignments| > 0 && AtSegment(ns, node, start, now, limits, position, i, p)
    ensures Tallied(ns, Mine(ns, node), now, limits, CountBelow(IndexTokens(ns), start), i,
                    |Crossed(ns.assignments, start, position)| + 1, p.(examined := p.examined + 1))
  {
  }

  lemma TakenTo(ns: NodeState, position: Token, segmentEnd: Token, i: nat, i': nat)
    requires Increasing(IndexTokens(ns)) && position <= segmentEnd
    requires i == CountBelow(IndexTokens(ns), position) <= i' <= |ns.index|
    requires forall j :: i <= j < i' ==> ns.index[j].token <= segmentEnd
    ensures i' == |ns.index| || ns.index[i'].token > segmentEnd ==> i' == CountBelow(IndexTokens(ns), segmentEnd + 1)
  {
    var t := IndexTokens(ns);
    if i' == |ns.index| || ns.index[i'].token > segmentEnd {
      assert forall j :: 0 <= j < i ==> t[j] < position;
      CountBelowIs(t, segmentEnd + 1, i');
    }
  }

  /** A segment another node owns adds nothing to the page. */
  lemma SkipSegment(ns: NodeState, node: NodeId, start: Token, now: nat, limits: PageLimits, position: Token, i: nat, j: nat,
                    p: Progress, p': Progress)
    requires |ns.assignments| > 0 && Increasing(IndexTokens(ns)) && Segment(ns.assignments, position).1 != node
    requires AtSegment(ns, node, start, now, limits, position, i, p) && p' == p.(examined := p.examined + 1)
    requires !limits.oneStretch && j == CountBelow(IndexTokens(ns), Segment(ns.assignments, position).0 + 1)
    ensures Behind(ns, node, start, now, limits, position, Segment(ns.assignments, position).0, j, p')
  {
    var end := Segment(ns.assignments, position).0 + 1;
    SegmentAdvances(ns.assignments, position);
    CountBelowMonotone(IndexTokens(ns), position, end);
    SegmentBuckets(ns, node, position);
    assert forall x :: 0 <= x < j ==> IndexTokens(ns)[x] < end;
    GatherSkips(ns, Mine(ns, node), now, CountBelow(IndexTokens(ns), start), i, j);
  }

  /** `owned_keys_page`. */
  method OwnedKeysPage(ns: NodeState, node: NodeId, start: Token, now: nat, limits: PageLimits) returns (page: KeyPage)
    requires Sorted(ns.assignments) && Increasing(IndexTokens(ns))
    ensures |ns.assignments| == 0 ==> page == KeyPage([], 0, None)
    ensures |ns.assignments| > 0 ==> PageExact(ns, node, start, now, limits, page)
    ensures |ns.assignments| > 0 ==>
      MayStop(ns, node, start, limits, PageEnd(page), page.count, if limits.countOnly then 0 else Bytes(page.keys))
    ensures page.count < limits.maxKeys + Widest(ns.index) && Bytes(page.keys) < limits.maxBytes + Heaviest(ns.index)
  {
    if |ns.assignments| == 0 { return KeyPage([], 0, None); }
    var position: nat, i, p := start, CountBelow(IndexTokens(ns), start), Progress(0, 0, 0, []);
    var done := false;
    while !done
      invariant done ==> PageReady(ns, node, start, now, limits, p, position, i)
      invariant !done ==> position <= MAX_TOKEN && AtSegment(ns, node, start, now, limits, position, i, p)
      decreases !done, MAX_TOKEN - position
    {
      done, position, i, p := PageTurn(ns, node, start, now, limits, position, i, p);
    }
    ReadyIsExact(ns, node, start, now, limits, p, position, i);
    return PageFrom(p, position);
  }

  function PageFrom(p: Progress, end: nat): KeyPage {
    KeyPage(p.keys, p.count, if end > MAX_TOKEN then None else Some(end))
  }

  lemma ReadyIsExact(ns: NodeState, node: NodeId, start: Token, now: nat, limits: PageLimits, p: Progress, end: nat, i: nat)
    requires |ns.assignments| > 0 && PageReady(ns, node, start, now, limits, p, end, i)
    ensures var page := PageFrom(p, end);
            && PageEnd(page) == end && PageExact(ns, node, start, now, limits, page)
            && MayStop(ns, node, start, limits, end, page.count, if limits.countOnly then 0 else Bytes(page.keys))
            && page.count < limits.maxKeys + Widest(ns.index) && Bytes(page.keys) < limits.maxBytes + Heaviest(ns.index)
  {
  }
}
