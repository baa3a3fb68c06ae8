/**
 A walk over the whole key set: every owner of one topology pages through its own keys, and a page from another epoch or
 from nobody sends the walk back to its start. A finished walk returns every key that stayed live exactly once.
 */
module Walk {
  import opened Ring
  import opened Topology
  import opened Placement
  import opened Keyspace
  import opened Scan

  const KEYS_PER_PAGE: nat := 1_000
  const COUNT_PER_PAGE: nat := 10_000

  function WalkLimits(countOnly: bool): PageLimits {
    PageLimits(if countOnly then COUNT_PER_PAGE else KEYS_PER_PAGE, KEY_BYTES_PER_PAGE, MAX_EXAMINED_PER_PAGE, countOnly,
               false)
  }

  predicate OwnsAny(ring: seq<Assignment>, node: NodeId) {
    exists a :: a in ring && a.node == node
  }

  /** The node's handler of a walk's page: it answers at the walk's own topology, which stands for its epoch, and an owner
      answers only with a lease. */
  method ListOwned(a: Attempt, ring: seq<Assignment>, node: NodeId, start: Token, countOnly: bool, ghost tok: KeyToken)
    returns (r: Option<KeyPage>)
    requires AttemptValid(a, tok) && |ring| > 0
    ensures r.Some? <==> a.Reached? && a.node == node && a.ns.assignments == ring && (OwnsAny(ring, node) ==> a.leased)
    ensures r.Some? ==> PageExact(a.ns, node, start, a.now, WalkLimits(countOnly), r.value)
    ensures r.Some? ==> && r.value.count < (if countOnly then COUNT_PER_PAGE else KEYS_PER_PAGE) + Widest(a.ns.index)
                        && Bytes(r.value.keys) < KEY_BYTES_PER_PAGE + Heaviest(a.ns.index)
  {
    if a.Unreachable? || a.node != node || a.ns.assignments != ring || (OwnsAny(ring, node) && !a.leased) { return None; }
    var page := OwnedKeysPage(a.ns, node, start, a.now, WalkLimits(countOnly));
    return Some(page);
  }

  /** One answered page of an owner. */
  ghost predicate PageSound(s: Stop, ring: seq<Assignment>, node: NodeId, tok: KeyToken) {
    && |ring| > 0 && s.ns.assignments == ring && s.node == node && Indexed(s.ns, tok) && s.start < s.end <= RING_END
    && s.keys == OwnedKeys(s.ns, node, s.now, s.start, s.end)
  }

  /** One owner's pages, from lo to hi without a gap. */
  ghost predicate OwnerPages(pages: seq<Stop>, ring: seq<Assignment>, node: NodeId, lo: nat, hi: nat, tok: KeyToken) {
    Contiguous(pages, lo, hi) && forall s :: s in pages ==> PageSound(s, ring, node, tok)
  }

  lemma {:induction false} PageContinues(pages: seq<Stop>, stop: Stop, ring: seq<Assignment>, node: NodeId,
                                         position: Token, countOnly: bool, page: KeyPage, tok: KeyToken)
    requires |ring| > 0 && OwnerPages(pages, ring, node, 0, position, tok) && Indexed(stop.ns, tok)
    requires stop.ns.assignments == ring && stop.node == node && stop.start == position && stop.end == PageEnd(page)
    requires PageExact(stop.ns, node, position, stop.now, WalkLimits(countOnly), page)
    requires stop.keys == OwnedKeys(stop.ns, node, stop.now, position, PageEnd(page))
    ensures position < PageEnd(page) && OwnerPages(pages + [stop], ring, node, 0, PageEnd(page), tok)
    ensures Listed(pages + [stop]) == Listed(pages) + stop.keys && page.count == |stop.keys|
    ensures page.keys == if countOnly then [] else stop.keys
  {
    assert (pages + [stop])[..|pages|] == pages;
  }

  datatype WalkOutcome = Part(keys: seq<Key>, count: nat) | Interrupted | Oversized

  function KeptUnless(countOnly: bool, keys: seq<Key>, keep: Key -> bool): seq<Key> {
    if countOnly then [] else Kept(keys, keep)
  }

  lemma KeptUnlessAppend(countOnly: bool, a: seq<Key>, b: seq<Key>, keep: Key -> bool)
    ensures KeptUnless(countOnly, a + b, keep) == KeptUnless(countOnly, a, keep) + KeptUnless(countOnly, b, keep)
  {
    KeptAppend(a, b, keep);
  }

  /** `walk_owner`: one owner's pages from the start of the ring to its end. `spent` is the budget the walk has used. */
  method WalkOwner(ring: seq<Assignment>, node: NodeId, answers: seq<Attempt>, countOnly: bool, keep: Key -> bool,
                   maxBytes: nat, spent: nat, ghost tok: KeyToken)
    returns (r: WalkOutcome, spent': nat, ghost pages: seq<Stop>)
    requires |ring| > 0 && OwnsAny(ring, node) && spent <= maxBytes && forall a :: a in answers ==> AttemptValid(a, tok)
    ensures r.Part? ==> && OwnerPages(pages, ring, node, 0, RING_END, tok) && FromAttempts(pages, answers)
                        && r.count == |Listed(pages)| && r.keys == KeptUnless(countOnly, Listed(pages), keep)
                        && spent' == spent + Cost(r.keys) <= maxBytes
    ensures r.Oversized? ==> spent + Cost(KeptUnless(countOnly, Listed(pages), keep)) > maxBytes
  {
    pages := [];
    var keys: seq<Key>, count: nat, position: nat := [], 0, 0;
    spent' := spent;
    for i := 0 to |answers|
      invariant position <= MAX_TOKEN && OwnerPages(pages, ring, node, 0, position, tok) && FromAttempts(pages, answers)
      invariant count == |Listed(pages)| && keys == KeptUnless(countOnly, Listed(pages), keep)
      invariant spent' == spent + Cost(keys) <= maxBytes
    {
      var a := answers[i];
      assert a in answers;
      var answer := ListOwned(a, ring, node, position, countOnly, tok);
      if answer.None? { return Interrupted, spent', pages; }
      var page := answer.value;
      ghost var listed := OwnedKeys(a.ns, node, a.now, position, PageEnd(page));
      ghost var stop := Stop(a.ns, node, a.now, position, PageEnd(page), listed);
      PageContinues(pages, stop, ring, node, position, countOnly, page, tok);
      KeptUnlessAppend(countOnly, Listed(pages), stop.keys, keep);
      CostAppend(keys, Kept(page.keys, keep));
      pages, count := pages + [stop], count + page.count;
      var ok;
      ok, keys, spent' := KeepWithin(page.keys, keep, maxBytes, keys, spent');
      if !ok { return Oversized, spent', pages; }
      if page.next.None? { return Part(keys, count), spent', pages; }
      position := page.next.value;
    }
    return Interrupted, spent', pages;
  }

  // ----- All owners -----

  /** `owner_endpoints`: the members that own part of the ring. */
  function OwnersAmong(members: seq<Member>, ring: seq<Assignment>): seq<NodeId> {
    if members == [] then []
    else
      var rest, last := OwnersAmong(members[..|members| - 1], ring), members[|members| - 1].id;
      if OwnsAny(ring, last) then rest + [last] else rest
  }

  lemma {:induction false} OwnersElements(members: seq<Member>, ring: seq<Assignment>, n: NodeId)
    ensures n in OwnersAmong(members, ring)
       <==> (exists m :: m in members && m.id == n) && exists a :: a in ring && a.node == n
    ensures MembersSorted(members) ==> NoRepeats(OwnersAmong(members, ring))
  {
    if members != [] {
      var init, last := members[..|members| - 1], members[|members| - 1];
      assert members == init + [last];
      OwnersElements(init, ring, n);
      OwnersElements(init, ring, last.id);
    }
  }

  /** Every token's owner is asked. */
  lemma OwnersCover(h: VnodeHash, s: Snapshot, t: Token)
    requires Valid(h, s)
    ensures |s.assignments| > 0 && Owner(s.assignments, t) in OwnersAmong(s.members, s.assignments)
    ensures NoRepeats(OwnersAmong(s.members, s.assignments))
  {
    ValidIsSorted(h, s);
    OwnerLeadsPreference(s.assignments, t);
    var n := Owner(s.assignments, t);
    PreferenceElements(h, s, t, n);
    OwnerIsFirstClockwise(s.assignments, t);
    ClockwiseElements(s.assignments, t, n);
    OwnersElements(s.members, s.assignments, n);
  }

  function AllListed(parts: seq<seq<Stop>>): seq<Key> {
    if parts == [] then [] else AllListed(parts[..|parts| - 1]) + Listed(parts[|parts| - 1])
  }

  ghost predicate AllPages(parts: seq<seq<Stop>>, ring: seq<Assignment>, owners: seq<NodeId>, answers: seq<seq<Attempt>>,
                           tok: KeyToken)
  {
    && |parts| <= |owners| && |parts| <= |answers|
    && forall i :: 0 <= i < |parts| ==> PartSound(parts[i], ring, owners[i], answers[i], tok)
  }

  /** One owner's pages are whole and come from what was asked of it. */
  ghost predicate PartSound(pages: seq<Stop>, ring: seq<Assignment>, node: NodeId, asked: seq<Attempt>, tok: KeyToken) {
    OwnerPages(pages, ring, node, 0, RING_END, tok) && FromAttempts(pages, asked)
  }

  /** Every owner's keys, all read at the walk's topology. */
  ghost predicate WalkExact(ring: seq<Assignment>, owners: seq<NodeId>, answers: seq<seq<Attempt>>, countOnly: bool,
                            keep: Key -> bool, keys: seq<Key>, count: nat, tok: KeyToken)
  {
    exists parts :: |parts| == |owners| && Walked(parts, ring, owners, answers, countOnly, keep, keys, count, tok)
  }

  /** The keys and the count are those of the owners walked so far. */
  ghost predicate Walked(parts: seq<seq<Stop>>, ring: seq<Assignment>, owners: seq<NodeId>, answers: seq<seq<Attempt>>,
                         countOnly: bool, keep: Key -> bool, keys: seq<Key>, count: nat, tok: KeyToken)
  {
    && AllPages(parts, ring, owners, answers, tok)
    && count == |AllListed(parts)| && keys == KeptUnless(countOnly, AllListed(parts), keep)
  }

  lemma {:induction false} WalkedOneMore(parts: seq<seq<Stop>>, pages: seq<Stop>, ring: seq<Assignment>,
                                         owners: seq<NodeId>, answers: seq<seq<Attempt>>, countOnly: bool,
                                         keep: Key -> bool, keys: seq<Key>, count: nat, part: WalkOutcome, tok: KeyToken)
    requires Walked(parts, ring, owners, answers, countOnly, keep, keys, count, tok)
    requires |parts| < |owners| && |parts| < |answers| && part.Part?
    requires PartSound(pages, ring, owners[|parts|], answers[|parts|], tok)
    requires part.count == |Listed(pages)| && part.keys == KeptUnless(countOnly, Listed(pages), keep)
    ensures Walked(parts + [pages], ring, owners, answers, countOnly, keep, keys + part.keys, count + part.count, tok)
  {
    KeptUnlessAppend(countOnly, AllListed(parts), Listed(pages), keep);
    AllListedSnoc(parts, pages);
    PagesOneMore(parts, pages, ring, owners, answers, tok);
  }

  lemma {:induction false} AllListedSnoc(parts: seq<seq<Stop>>, pages: seq<Stop>)
    ensures AllListed(parts + [pages]) == AllListed(parts) + Listed(pages)
  {
    assert (parts + [pages])[..|parts|] == parts;
  }

  lemma PagesOneMore(parts: seq<seq<Stop>>, pages: seq<Stop>, ring: seq<Assignment>, owners: seq<NodeId>,
                     answers: seq<seq<Attempt>>, tok: KeyToken)
    requires AllPages(parts, ring, owners, answers, tok) && |parts| < |owners| && |parts| < |answers|
    requires PartSound(pages, ring, owners[|parts|], answers[|parts|], tok)
    ensures AllPages(parts + [pages], ring, owners, answers, tok)
  {
    var sound := (p: seq<Stop>, n: NodeId, asked: seq<Attempt>) => PartSound(p, ring, n, asked, tok);
    AllSnoc(sound, parts, pages, owners, answers);
  }

  /** Nothing about parts is needed for one more of them. */
  lemma AllSnoc(sound: (seq<Stop>, NodeId, seq<Attempt>) -> bool, parts: seq<seq<Stop>>, pages: seq<Stop>,
                owners: seq<NodeId>, answers: seq<seq<Attempt>>)
    requires |parts| < |owners| && |parts| < |answers| && sound(pages, owners[|parts|], answers[|parts|])
    requires forall i :: 0 <= i < |parts| ==> sound(parts[i], owners[i], answers[i])
    ensures forall i :: 0 <= i < |parts + [pages]| ==> sound((parts + [pages])[i], owners[i], answers[i])
  {
  }

  ghost predicate AnswersValid(answers: seq<seq<Attempt>>, tok: KeyToken) {
    forall i, a :: 0 <= i < |answers| && a in answers[i] ==> AttemptValid(a, tok)
  }

  /** One attempt at a walk, all owners in turn; an interrupted owner interrupts it. */
  method WalkOnce(ring: seq<Assignment>, owners: seq<NodeId>, answers: seq<seq<Attempt>>, countOnly: bool, keep: Key -> bool,
                  maxBytes: nat, ghost tok: KeyToken)
    returns (r: WalkOutcome)
    requires |ring| > 0 && |answers| == |owners| && AnswersValid(answers, tok)
    requires forall n :: n in owners ==> OwnsAny(ring, n)
    ensures r.Part? ==> WalkExact(ring, owners, answers, countOnly, keep, r.keys, r.count, tok) && Cost(r.keys) <= maxBytes
  {
    var keys: seq<Key>, count: nat, spent: nat := [], 0, 0;
    ghost var parts: seq<seq<Stop>> := [];
    for i := 0 to |owners|
      invariant |parts| == i && Walked(parts, ring, owners, answers, countOnly, keep, keys, count, tok)
      invariant spent == Cost(keys) <= maxBytes
    {
      ghost var pages;
      r, spent, pages := WalkOwner(ring, owners[i], answers[i], countOnly, keep, maxBytes, spent, tok);
      if !r.Part? { return; }
      CostAppend(keys, r.keys);
      WalkedOneMore(parts, pages, ring, owners, answers, countOnly, keep, keys, count, r, tok);
      parts, keys, count := parts + [pages], keys + r.keys, count + r.count;
    }
    r := Part(keys, count);
  }

  /** A topology the client had, and what its owners answered. */
  datatype Round = Round(topology: Snapshot, answers: seq<seq<Attempt>>)

  function RoundOwners(round: Round): seq<NodeId> {
    OwnersAmong(round.topology.members, round.topology.assignments)
  }

  ghost predicate RoundValid(h: VnodeHash, round: Round, tok: KeyToken) {
    && Valid(h, round.topology) && AnswersValid(round.answers, tok)
    && |round.answers| == |RoundOwners(round)|
  }

  ghost predicate RoundExact(round: Round, countOnly: bool, keep: Key -> bool, keys: seq<Key>, count: nat, tok: KeyToken) {
    WalkExact(round.topology.assignments, RoundOwners(round), round.answers, countOnly, keep, keys, count, tok)
  }

  /** `walk`: starts over, with the topology it then has, until one attempt finishes. */
  method WalkAll(rounds: seq<Round>, countOnly: bool, keep: Key -> bool, maxBytes: nat, ghost h: VnodeHash,
                 ghost tok: KeyToken)
    returns (r: WalkOutcome)
    requires forall x :: x in rounds ==> RoundValid(h, x, tok)
    ensures r.Part? ==> exists round :: round in rounds && RoundExact(round, countOnly, keep, r.keys, r.count, tok)
    ensures r.Part? ==> Cost(r.keys) <= maxBytes
  {
    for i := 0 to |rounds| {
      var s := rounds[i].topology;
      assert rounds[i] in rounds;
      ValidIsSorted(h, s);
      forall n | n in OwnersAmong(s.members, s.assignments) ensures OwnsAny(s.assignments, n) {
        OwnersElements(s.members, s.assignments, n);
      }
      r := WalkOnce(s.assignments, OwnersAmong(s.members, s.assignments), rounds[i].answers, countOnly, keep, maxBytes, tok);
      if !r.Interrupted? { return; }
    }
    r := Interrupted;
  }

  // ----- Exactness -----

  /** One owner lists a key that stays live exactly once if it owns it and not at all otherwise. */
  lemma {:induction false} OwnerCount(pages: seq<Stop>, ring: seq<Assignment>, node: NodeId, lo: nat, hi: nat, tok: KeyToken,
                                      k: Key)
    requires |ring| > 0 && OwnerPages(pages, ring, node, lo, hi, tok) && StaysLive(pages, tok, k)
    ensures lo <= hi
    ensures multiset(Listed(pages))[k] == if lo <= tok(k) < hi && Owner(ring, tok(k)) == node then 1 else 0
  {
    if pages != [] {
      var init, last := pages[..|pages| - 1], pages[|pages| - 1];
      assert last in pages;
      OwnerCount(init, ring, node, lo, last.start, tok, k);
      OwnedKeysCount(last.ns, last.node, last.now, last.start, last.end, tok, k);
    }
  }

  /** The key is live at its owner whenever that owner, leased, is asked. */
  ghost predicate LiveThroughout(answers: seq<seq<Attempt>>, tok: KeyToken, k: Key) {
    forall i :: 0 <= i < |answers| ==> LiveWheneverAsked(answers[i], tok, k)
  }

  lemma PagesStayLive(pages: seq<Stop>, answers: seq<Attempt>, tok: KeyToken, k: Key)
    requires FromAttempts(pages, answers) && LiveWheneverAsked(answers, tok, k)
    ensures StaysLive(pages, tok, k)
  {
    forall s: Stop | s in pages && |s.ns.assignments| > 0 && Owner(s.ns.assignments, tok(k)) == s.node
      ensures KeyLive(s.ns, k, s.now)
    {
      assert Reached(s.ns, s.node, s.now, true) in answers;
    }
  }

  /** Where the key is among all parts: at its owner's place, if that place has been walked. */
  function Places(ring: seq<Assignment>, owners: seq<NodeId>, n: nat, t: Token): nat
    requires |ring| > 0 && n <= |owners|
  {
    if n == 0 then 0 else Places(ring, owners, n - 1, t) + if Owner(ring, t) == owners[n - 1] then 1 else 0
  }

  /** Distinct owners hold a token once if its owner is among them. */
  lemma {:induction false} OnePlace(ring: seq<Assignment>, owners: seq<NodeId>, n: nat, t: Token)
    requires |ring| > 0 && n <= |owners| && NoRepeats(owners)
    ensures Places(ring, owners, n, t) == if Owner(ring, t) in owners[..n] then 1 else 0
  {
    if n > 0 {
      OnePlace(ring, owners, n - 1, t);
      assert owners[..n] == owners[..n - 1] + [owners[n - 1]];
    }
  }

  lemma CountAppend(a: seq<Key>, b: seq<Key>, k: Key)
    ensures multiset(a + b)[k] == multiset(a)[k] + multiset(b)[k]
  {
  }

  lemma {:induction false} PartsCount(parts: seq<seq<Stop>>, ring: seq<Assignment>, owners: seq<NodeId>,
                                      answers: seq<seq<Attempt>>, tok: KeyToken, k: Key)
    requires |ring| > 0 && AllPages(parts, ring, owners, answers, tok) && LiveThroughout(answers, tok, k)
    ensures multiset(AllListed(parts))[k] == Places(ring, owners, |parts|, tok(k))
  {
    if parts != [] {
      var n := |parts| - 1;
      PartsCount(parts[..n], ring, owners, answers, tok, k);
      PagesStayLive(parts[n], answers[n], tok, k);
      OwnerCount(parts[n], ring, owners[n], 0, RING_END, tok, k);
      CountAppend(AllListed(parts[..n]), Listed(parts[n]), k);
    }
  }

  /** What the owners of one topology list: a key that stays live, exactly once. */
  lemma {:induction false} LiveIsListedOnce(h: VnodeHash, round: Round, parts: seq<seq<Stop>>, tok: KeyToken, k: Key)
    requires RoundValid(h, round, tok) && LiveThroughout(round.answers, tok, k) && |parts| == |RoundOwners(round)|
    requires AllPages(parts, round.topology.assignments, RoundOwners(round), round.answers, tok)
    ensures multiset(AllListed(parts))[k] == 1
  {
    var s := round.topology;
    var owners := RoundOwners(round);
    OwnersCover(h, s, tok(k));
    PartsCount(parts, s.assignments, owners, round.answers, tok, k);
    OnePlace(s.assignments, owners, |owners|, tok(k));
    assert owners[..|owners|] == owners;
  }

  /** A finished walk returns every wanted key that stays live at its owner exactly once. */
  lemma WalkIsExact(h: VnodeHash, round: Round, keep: Key -> bool, keys: seq<Key>, count: nat, tok: KeyToken, k: Key)
    requires RoundValid(h, round, tok) && RoundExact(round, false, keep, keys, count, tok)
    requires LiveThroughout(round.answers, tok, k)
    ensures multiset(keys)[k] == if keep(k) then 1 else 0
  {
    var parts := PartsOf(round, false, keep, keys, count, tok);
    LiveIsListedOnce(h, round, parts, tok, k);
    KeptCount(AllListed(parts), keep, k);
  }

  ghost function PartsOf(round: Round, countOnly: bool, keep: Key -> bool, keys: seq<Key>, count: nat, tok: KeyToken)
    : (parts: seq<seq<Stop>>)
    requires RoundExact(round, countOnly, keep, keys, count, tok)
    ensures AllPages(parts, round.topology.assignments, RoundOwners(round), round.answers, tok)
    ensures |parts| == |RoundOwners(round)| && count == |AllListed(parts)|
    ensures keys == KeptUnless(countOnly, AllListed(parts), keep)
  {
    var ring, owners := round.topology.assignments, RoundOwners(round);
    var parts :| |parts| == |owners| && Walked(parts, ring, owners, round.answers, countOnly, keep, keys, count, tok);
    parts
  }

  /** The key was live at its owner when that owner, leased, was asked at the walk's topology. */
  ghost predicate SeenLive(round: Round, tok: KeyToken, k: Key) {
    exists i, a :: && 0 <= i < |round.answers| && a in round.answers[i] && a.Reached? && a.leased
                   && |a.ns.assignments| > 0 && a.ns.assignments == round.topology.assignments
                   && Owner(a.ns.assignments, tok(k)) == a.node && KeyLive(a.ns, k, a.now)
  }

  lemma {:induction false} PageIsLive(pages: seq<Stop>, ring: seq<Assignment>, node: NodeId, lo: nat, hi: nat, tok: KeyToken,
                                      k: Key)
    requires OwnerPages(pages, ring, node, lo, hi, tok) && k in Listed(pages)
    ensures exists s :: s in pages && |ring| > 0 && s.ns.assignments == ring && s.node == node
                     && Owner(ring, tok(k)) == node && KeyLive(s.ns, k, s.now)
  {
    var init, last := pages[..|pages| - 1], pages[|pages| - 1];
    assert last in pages;
    if k in Listed(init) {
      PageIsLive(init, ring, node, lo, last.start, tok, k);
    } else {
      OwnedKeysCount(last.ns, last.node, last.now, last.start, last.end, tok, k);
      assert multiset(last.keys)[k] > 0;
    }
  }

  lemma {:induction false} ListedSomewhere(parts: seq<seq<Stop>>, k: Key) returns (i: nat)
    requires k in AllListed(parts)
    ensures i < |parts| && k in Listed(parts[i])
  {
    var n := |parts| - 1;
    if k in Listed(parts[n]) {
      i := n;
    } else {
      i := ListedSomewhere(parts[..n], k);
    }
  }

  lemma {:induction false} ListedWasLive(round: Round, parts: seq<seq<Stop>>, tok: KeyToken, k: Key)
    requires AllPages(parts, round.topology.assignments, RoundOwners(round), round.answers, tok) && k in AllListed(parts)
    ensures SeenLive(round, tok, k)
  {
    var ring := round.topology.assignments;
    var i := ListedSomewhere(parts, k);
    PageIsLive(parts[i], ring, RoundOwners(round)[i], 0, RING_END, tok, k);
    var s :| s in parts[i] && |ring| > 0 && s.ns.assignments == ring && s.node == RoundOwners(round)[i]
          && Owner(ring, tok(k)) == s.node && KeyLive(s.ns, k, s.now);
    assert Reached(s.ns, s.node, s.now, true) in round.answers[i];
  }

  /** And it returns nothing but wanted keys that were live at their owner when it was asked. */
  lemma WalkIsSound(round: Round, keep: Key -> bool, keys: seq<Key>, count: nat, tok: KeyToken, k: Key)
    requires RoundExact(round, false, keep, keys, count, tok) && k in keys
    ensures keep(k) && SeenLive(round, tok, k)
  {
    var parts := PartsOf(round, false, keep, keys, count, tok);
    KeptCount(AllListed(parts), keep, k);
    assert multiset(keys)[k] > 0;
    assert k in multiset(AllListed(parts));
    ListedWasLive(round, parts, tok, k);
  }

  /** A listing that holds each of these keys once is at least as long as they are many, and exactly so if it holds no
      other key. */
  lemma ListingSize(listed: seq<Key>, ks: set<Key>)
    requires forall k :: k in ks ==> multiset(listed)[k] == 1
    ensures |ks| <= |listed| && ((forall k :: k in listed ==> k in ks) ==> |ks| == |listed|)
  {
    var m := multiset(ks);
    var rest := multiset(listed) - m;
    assert multiset(listed) == m + rest;
    assert |m + rest| == |m| + |rest| && |m| == |ks| && |multiset(listed)| == |listed|;
    if forall k :: k in listed ==> k in ks {
      assert forall k :: k in rest ==> k in multiset(listed);
      assert rest == multiset{};
    }
  }

  /** A finished count is at least the number of keys that stayed live, and exactly that number if no other key was live
      at its owner when asked. */
  lemma CountIsExact(h: VnodeHash, round: Round, keep: Key -> bool, keys: seq<Key>, count: nat, tok: KeyToken, live: set<Key>)
    requires RoundValid(h, round, tok) && RoundExact(round, true, keep, keys, count, tok)
    requires forall k :: k in live ==> LiveThroughout(round.answers, tok, k)
    ensures |live| <= count
    ensures (forall k :: SeenLive(round, tok, k) ==> k in live) ==> count == |live|
  {
    var parts := PartsOf(round, true, keep, keys, count, tok);
    var listed := AllListed(parts);
    forall k | k in live ensures multiset(listed)[k] == 1 {
      LiveIsListedOnce(h, round, parts, tok, k);
    }
    forall k | k in listed ensures SeenLive(round, tok, k) {
      ListedWasLive(round, parts, tok, k);
    }
    ListingSize(listed, live);
  }
}
