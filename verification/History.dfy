/**
 The fault run's model of one key: which states a read may return, and a bounded history of acknowledged states with a
 fingerprint index. The indexed history is a plain move-to-back list whatever the fingerprint function, and the model
 accepts every read of a correct register.
 */
module History {
  import opened Topology
  import opened Records

  /** A state of the key: absent, or a value whose version the run may not know. */
  datatype State = State(value: Option<string>, version: Option<Version>)

  /** An acknowledged state, kept as digests. */
  datatype Acked = Acked(value: Option<nat>, version: Option<nat>)

  /** The digest and fingerprint functions; nothing is assumed of them. */
  datatype Hashes = Hashes(value: string -> nat, version: Version -> nat, fingerprint: Acked -> nat)

  datatype Observation = Matches | Rollback(first: bool, kind: Kind) | Undecidable | Impossible

  datatype Kind = DeleteLost | OlderValue | ValueLost

  function AckedOf(h: Hashes, s: State): Acked {
    Acked(if s.value.Some? then Some(h.value(s.value.value)) else None,
          if s.version.Some? then Some(h.version(s.version.value)) else None)
  }

  /** Whether a read may return this for the state; an unknown version matches any. */
  predicate StateMatches(s: State, read: State) {
    && (s.value.None? <==> read.value.None?)
    && (s.value.Some? ==> s.value == read.value && (s.version.None? || s.version == read.version))
  }

  predicate AckedMatches(a: Acked, read: Acked) {
    && (a.value.None? <==> read.value.None?)
    && (a.value.Some? ==> a.value == read.value && (a.version.None? || a.version == read.version))
  }

  // ----- The plain list -----

  function IndexOf(list: seq<Acked>, x: Acked): (i: nat)
    requires x in list
    ensures i < |list| && list[i] == x && x !in list[..i]
  {
    if list[0] == x then 0 else
      assert x in list[1..];
      var i := IndexOf(list[1..], x);
      assert list[..i + 1] == [list[0]] + list[1..][..i];
      i + 1
  }

  function RemoveAt(list: seq<Acked>, i: nat): seq<Acked>
    requires i < |list|
  {
    list[..i] + list[i + 1..]
  }

  predicate Evicts(list: seq<Acked>, x: Acked, window: nat) {
    x !in list && |list| >= window && list != []
  }

  /** Move to the back, or append and drop the oldest when the window is full. */
  function Remembered(list: seq<Acked>, x: Acked, window: nat): seq<Acked> {
    if x in list then RemoveAt(list, IndexOf(list, x)) + [x]
    else if Evicts(list, x, window) then list[1..] + [x]
    else list + [x]
  }

  ghost predicate AllDifferent(list: seq<Acked>) {
    forall i, j :: 0 <= i < j < |list| ==> list[i] != list[j]
  }

  /** The list never repeats a state and never outgrows its window, which holds at least one. */
  lemma RememberedIsBounded(list: seq<Acked>, x: Acked, window: nat)
    requires AllDifferent(list) && |list| <= Max(window, 1)
    ensures AllDifferent(Remembered(list, x, window)) && |Remembered(list, x, window)| <= Max(window, 1)
    ensures Remembered(list, x, window) != [] && Remembered(list, x, window)[|Remembered(list, x, window)| - 1] == x
  {
    if x in list {
      RemovedStaysDifferent(list, x, IndexOf(list, x));
    } else if Evicts(list, x, window) {
      AppendedStaysDifferent(list[1..], x);
    } else {
      AppendedStaysDifferent(list, x);
    }
  }

  lemma AppendedStaysDifferent(list: seq<Acked>, x: Acked)
    requires AllDifferent(list) && x !in list
    ensures AllDifferent(list + [x])
  {
  }

  lemma RemovedStaysDifferent(list: seq<Acked>, x: Acked, i: nat)
    requires AllDifferent(list) && i < |list| && list[i] == x
    ensures AllDifferent(RemoveAt(list, i) + [x])
  {
    var rest := RemoveAt(list, i);
    forall j | 0 <= j < |rest| ensures rest[j] == list[if j < i then j else j + 1] {
    }
    AppendedStaysDifferent(rest, x);
  }

  /** The unbounded move-to-back list. */
  function Moved(list: seq<Acked>, x: Acked): seq<Acked> {
    if x in list then RemoveAt(list, IndexOf(list, x)) + [x] else list + [x]
  }

  function Suffix(list: seq<Acked>, n: nat): seq<Acked> {
    if |list| <= n then list else list[|list| - n..]
  }

  lemma {:induction false} IndexIsUnique(list: seq<Acked>, x: Acked, i: nat)
    requires AllDifferent(list) && i < |list| && list[i] == x
    ensures IndexOf(list, x) == i
  {
  }

  lemma SuffixOf(a: seq<Acked>, b: seq<Acked>, n: nat)
    requires |b| == n || (a == [] && |b| <= n)
    ensures Suffix(a + b, n) == b
  {
  }

  lemma Regroup(a: seq<Acked>, b: seq<Acked>, c: seq<Acked>)
    ensures (a + b) + c == a + (b + c)
  {
  }

  lemma RemoveFromNewer(a: seq<Acked>, b: seq<Acked>, i: nat)
    requires i < |b|
    ensures RemoveAt(a + b, |a| + i) == a + RemoveAt(b, i)
  {
  }

  lemma MovedFrom(list: seq<Acked>, x: Acked, i: nat)
    requires AllDifferent(list) && i < |list| && list[i] == x
    ensures Moved(list, x) == RemoveAt(list, i) + [x] && |Moved(list, x)| == |list|
  {
    IndexIsUnique(list, x, i);
  }

  lemma NewerIsDifferent(a: seq<Acked>, b: seq<Acked>)
    requires AllDifferent(a + b)
    ensures AllDifferent(b)
  {
    forall i, j | 0 <= i < j < |b| ensures b[i] != b[j] {
      assert (a + b)[|a| + i] == b[i] && (a + b)[|a| + j] == b[j];
    }
  }

  /** Moving a state of the newer part leaves the older part alone. */
  lemma MovedInNewer(a: seq<Acked>, b: seq<Acked>, x: Acked)
    requires AllDifferent(a + b) && x in b
    ensures Moved(a + b, x) == a + Moved(b, x) && |Moved(b, x)| == |b|
  {
    var i :| 0 <= i < |b| && b[i] == x;
    NewerIsDifferent(a, b);
    MovedFrom(b, x, i);
    MovedFrom(a + b, x, |a| + i);
    RemoveFromNewer(a, b, i);
    Regroup(a, RemoveAt(b, i), [x]);
  }

  lemma RemoveFromOlder(a: seq<Acked>, b: seq<Acked>, i: nat)
    requires i < |a|
    ensures RemoveAt(a + b, i) == RemoveAt(a, i) + b
  {
  }

  /** Moving a state of the older part shifts the newer part by one. */
  lemma {:induction false} MovedInOlder(a: seq<Acked>, b: seq<Acked>, x: Acked)
    requires AllDifferent(a + b) && x in a && x !in b
    ensures Moved(a + b, x) == RemoveAt(a, IndexOf(a, x)) + (b + [x])
  {
    var i := IndexOf(a, x);
    assert (a + b)[i] == x;
    IndexIsUnique(a + b, x, i);
    RemoveFromOlder(a, b, i);
    Regroup(RemoveAt(a, i), b, [x]);
  }

  lemma MovedStaysDifferent(list: seq<Acked>, x: Acked)
    requires AllDifferent(list)
    ensures AllDifferent(Moved(list, x))
  {
  }

  lemma ShiftedSuffix(older: seq<Acked>, b: seq<Acked>, x: Acked, window: nat)
    requires x !in b && (|b| == Max(window, 1) || (older == [] && |b| < Max(window, 1)))
    ensures Suffix(older + (b + [x]), Max(window, 1)) == Remembered(b, x, window)
  {
    if |b| == Max(window, 1) {
      assert older + (b + [x]) == (older + [b[0]]) + (b[1..] + [x]);
      SuffixOf(older + [b[0]], b[1..] + [x], Max(window, 1));
    } else {
      SuffixOf(older, b + [x], Max(window, 1));
    }
  }

  /** The bounded list is always the newest part of the unbounded one. */
  lemma WindowIsNewest(full: seq<Acked>, x: Acked, window: nat)
    requires AllDifferent(full)
    ensures Remembered(Suffix(full, Max(window, 1)), x, window) == Suffix(Moved(full, x), Max(window, 1))
  {
    var n := Max(window, 1);
    var b := Suffix(full, n);
    var a := full[..|full| - |b|];
    assert full == a + b;
    if x in b {
      MovedInNewer(a, b, x);
      SuffixOf(a, Moved(b, x), n);
    } else if x in a {
      MovedInOlder(a, b, x);
      ShiftedSuffix(RemoveAt(a, IndexOf(a, x)), b, x, window);
    } else {
      Regroup(a, b, [x]);
      ShiftedSuffix(a, b, x, window);
    }
  }

  function RememberAll(history: seq<Acked>, window: nat): seq<Acked> {
    if history == [] then [] else Remembered(RememberAll(history[..|history| - 1], window), history[|history| - 1], window)
  }

  function MoveAll(history: seq<Acked>): seq<Acked> {
    if history == [] then [] else Moved(MoveAll(history[..|history| - 1]), history[|history| - 1])
  }

  /** After any history, the window holds exactly the most recently acknowledged states. */
  lemma {:induction false} WindowHoldsNewest(history: seq<Acked>, window: nat)
    ensures RememberAll(history, window) == Suffix(MoveAll(history), Max(window, 1)) && AllDifferent(MoveAll(history))
  {
    if history != [] {
      WindowHoldsNewest(history[..|history| - 1], window);
      WindowIsNewest(MoveAll(history[..|history| - 1]), history[|history| - 1], window);
      MovedStaysDifferent(MoveAll(history[..|history| - 1]), history[|history| - 1]);
    }
  }

  // ----- The index -----

  function Count(list: seq<Acked>, fp: Acked -> nat, f: nat): nat {
    if list == [] then 0 else Count(list[..|list| - 1], fp, f) + if fp(list[|list| - 1]) == f then 1 else 0
  }

  lemma {:induction false} CountSplit(a: seq<Acked>, b: seq<Acked>, fp: Acked -> nat, f: nat)
    ensures Count(a + b, fp, f) == Count(a, fp, f) + Count(b, fp, f)
  {
    if b == [] {
      assert a + b == a;
    } else {
      assert (a + b)[..|a + b| - 1] == a + b[..|b| - 1];
      CountSplit(a, b[..|b| - 1], fp, f);
    }
  }

  lemma {:induction false} CountRemoved(list: seq<Acked>, i: nat, fp: Acked -> nat, f: nat)
    requires i < |list|
    ensures Count(list, fp, f) == Count(RemoveAt(list, i), fp, f) + if fp(list[i]) == f then 1 else 0
  {
    assert list == list[..i] + ([list[i]] + list[i + 1..]);
    CountSplit(list[..i], [list[i]] + list[i + 1..], fp, f);
    CountSplit([list[i]], list[i + 1..], fp, f);
    CountSplit(list[..i], list[i + 1..], fp, f);
    assert [list[i]][..0] == [];
  }

  lemma {:induction false} CountAdded(list: seq<Acked>, x: Acked, fp: Acked -> nat, f: nat)
    ensures Count(list + [x], fp, f) == Count(list, fp, f) + if fp(x) == f then 1 else 0
  {
    assert (list + [x])[..|list|] == list;
  }

  lemma {:induction false} MemberCounts(list: seq<Acked>, x: Acked, fp: Acked -> nat)
    requires x in list
    ensures Count(list, fp, fp(x)) > 0
  {
    CountRemoved(list, IndexOf(list, x), fp, fp(x));
  }

  /** The index counts, for every fingerprint, the states in the list that have it. */
  ghost predicate Indexed(known: map<nat, nat>, list: seq<Acked>, fp: Acked -> nat) {
    forall f :: (f in known <==> Count(list, fp, f) > 0) && (f in known ==> known[f] == Count(list, fp, f))
  }

  lemma UnknownIsNew(known: map<nat, nat>, list: seq<Acked>, x: Acked, fp: Acked -> nat)
    requires Indexed(known, list, fp)
    ensures fp(x) !in known ==> x !in list
  {
    if x in list {
      MemberCounts(list, x, fp);
    }
  }

  function Forgotten(known: map<nat, nat>, f: nat): map<nat, nat> {
    if f !in known then known else if known[f] <= 1 then known - {f} else known[f := known[f] - 1]
  }

  function Learned(known: map<nat, nat>, f: nat): map<nat, nat> {
    known[f := (if f in known then known[f] else 0) + 1]
  }

  lemma ForgetKeepsIndex(known: map<nat, nat>, list: seq<Acked>, i: nat, fp: Acked -> nat)
    requires Indexed(known, list, fp) && i < |list|
    ensures Indexed(Forgotten(known, fp(list[i])), RemoveAt(list, i), fp)
  {
    forall f ensures Count(list, fp, f) == Count(RemoveAt(list, i), fp, f) + if fp(list[i]) == f then 1 else 0 {
      CountRemoved(list, i, fp, f);
    }
  }

  lemma LearnKeepsIndex(known: map<nat, nat>, list: seq<Acked>, x: Acked, fp: Acked -> nat)
    requires Indexed(known, list, fp)
    ensures Indexed(Learned(known, fp(x)), list + [x], fp)
  {
    forall f ensures Count(list + [x], fp, f) == Count(list, fp, f) + if fp(x) == f then 1 else 0 {
      CountAdded(list, x, fp, f);
    }
  }

  lemma MoveKeepsIndex(known: map<nat, nat>, list: seq<Acked>, i: nat, fp: Acked -> nat)
    requires Indexed(known, list, fp) && i < |list|
    ensures Indexed(known, RemoveAt(list, i) + [list[i]], fp)
  {
    forall f ensures Count(RemoveAt(list, i) + [list[i]], fp, f) == Count(list, fp, f) {
      CountRemoved(list, i, fp, f);
      CountAdded(RemoveAt(list, i), list[i], fp, f);
    }
  }

  // ----- The model of a key, on a plain list -----

  datatype Model = Model(possible: seq<State>, acked: seq<Acked>, dropped: nat, rolledBack: bool, established: nat)

  function Remember(m: Model, h: Hashes, window: nat, s: State): Model {
    var x := AckedOf(h, s);
    m.(acked := Remembered(m.acked, x, window), dropped := m.dropped + if Evicts(m.acked, x, window) then 1 else 0)
  }

  function Resync(m: Model, h: Hashes, window: nat, s: State): Model {
    var epoch := if s.version.Some? then Max(m.established, s.version.value.epoch) else m.established;
    Remember(m.(established := epoch, possible := [s]), h, window, s)
  }

  /** A mutation whose outcome the run does not know. */
  function Ambiguous(m: Model, h: Hashes, window: nat, s: State): Model {
    var remembered := Remember(m, h, window, s);
    remembered.(possible := remembered.possible + [s])
  }

  function FirstMatch(possible: seq<State>, read: State): (r: Option<State>)
    ensures r.None? <==> forall s :: s in possible ==> !StateMatches(s, read)
    ensures r.Some? ==> r.value in possible && StateMatches(r.value, read)
  {
    if possible == [] then None
    else if StateMatches(possible[0], read) then Some(possible[0])
    else
      assert forall s :: s in possible <==> s == possible[0] || s in possible[1..];
      FirstMatch(possible[1..], read)
  }

  predicate WildFor(a: Acked, concrete: Acked) {
    a.value == concrete.value && a.version.None?
  }

  /** The history without the first entry a concrete state replaces. */
  function WithoutWild(list: seq<Acked>, concrete: Acked): seq<Acked> {
    if list == [] then []
    else if WildFor(list[0], concrete) then list[1..]
    else [list[0]] + WithoutWild(list[1..], concrete)
  }

  predicate AnyAckedMatches(list: seq<Acked>, read: Acked) {
    exists a :: a in list && AckedMatches(a, read)
  }

  predicate AnyAbsent(possible: seq<State>) {
    exists s :: s in possible && s.value.None?
  }

  /** `observe`: a read that a possible state explains is a match; one that only the history explains is a rollback. */
  function Observe(m: Model, h: Hashes, window: nat, read: State): (Model, Observation) {
    var found := FirstMatch(m.possible, read);
    var concrete := AckedOf(h, read);
    if found.Some? then
      var settles := found.value.version.None? && read.value.Some? && read.version.Some?;
      var kept := if settles then WithoutWild(m.acked, concrete) else m.acked;
      (Resync(m.(acked := kept), h, window, read), Matches)
    else if AnyAckedMatches(m.acked, concrete) then
      var kind := if read.value.None? then ValueLost else if AnyAbsent(m.possible) then DeleteLost else OlderValue;
      var state := if read.value.Some? then read else State(None, None);
      (Resync(m.(rolledBack := true), h, window, state), Rollback(!m.rolledBack, kind))
    else (m, if m.dropped > 0 then Undecidable else Impossible)
  }

  // ----- The indexed form -----

  class KeyModel {
    const hashes: Hashes
    const window: nat
    var possible: seq<State>
    var acknowledged: seq<Acked>
    var known: map<nat, nat>
    var dropped: nat
    var rolledBack: bool
    var established: nat

    ghost predicate Valid()
      reads this
    {
      && Indexed(known, acknowledged, hashes.fingerprint)
      && AllDifferent(acknowledged) && |acknowledged| <= Max(window, 1)
    }

    function Now(): Model
      reads this
    {
      Model(possible, acknowledged, dropped, rolledBack, established)
    }

    constructor (state: State, window: nat, hashes: Hashes)
      ensures Valid() && this.window == window && this.hashes == hashes
      ensures Now() == Resync(Model([], [], 0, false, 0), hashes, window, state)
    {
      this.hashes, this.window := hashes, window;
      possible, acknowledged, known, dropped, rolledBack, established := [], [], map[], 0, false, 0;
      new;
      ResyncTo(state);
    }

    method FindPosition(x: Acked) returns (r: Option<nat>)
      ensures r.None? <==> x !in acknowledged
      ensures r.Some? ==> x in acknowledged && r.value == IndexOf(acknowledged, x)
    {
      for i := 0 to |acknowledged|
        invariant x !in acknowledged[..i]
      {
        if acknowledged[i] == x {
          return Some(i);
        }
      }
      return None;
    }

    /** A state the window does not hold: drop the oldest if it is full, and append. */
    method Admit(x: Acked)
      requires Indexed(known, acknowledged, hashes.fingerprint) && x !in acknowledged
      modifies this`acknowledged, this`known, this`dropped
      ensures Indexed(known, acknowledged, hashes.fingerprint)
      ensures acknowledged == Remembered(old(acknowledged), x, window)
      ensures dropped == old(dropped) + if Evicts(old(acknowledged), x, window) then 1 else 0
    {
      if |acknowledged| >= window && acknowledged != [] {
        ForgetKeepsIndex(known, acknowledged, 0, hashes.fingerprint);
        assert RemoveAt(acknowledged, 0) == acknowledged[1..];
        known := Forgotten(known, hashes.fingerprint(acknowledged[0]));
        acknowledged, dropped := acknowledged[1..], dropped + 1;
      }
      LearnKeepsIndex(known, acknowledged, x, hashes.fingerprint);
      known := Learned(known, hashes.fingerprint(x));
      acknowledged := acknowledged + [x];
    }

    method MoveToBack(i: nat)
      requires Indexed(known, acknowledged, hashes.fingerprint) && i < |acknowledged|
      modifies this`acknowledged
      ensures Indexed(known, acknowledged, hashes.fingerprint)
      ensures acknowledged == RemoveAt(old(acknowledged), i) + [old(acknowledged)[i]]
    {
      MoveKeepsIndex(known, acknowledged, i, hashes.fingerprint);
      acknowledged := RemoveAt(acknowledged, i) + [acknowledged[i]];
    }

    /** `remember`: the index only saves the search; what is kept is the plain list's. */
    method RememberState(s: State)
      requires Valid()
      modifies this`acknowledged, this`known, this`dropped
      ensures Valid() && Now() == Remember(old(Now()), hashes, window, s)
    {
      var x := AckedOf(hashes, s);
      RememberedIsBounded(acknowledged, x, window);
      if acknowledged != [] && acknowledged[|acknowledged| - 1] == x {
        LastStays(acknowledged, x);
        return;
      }
      UnknownIsNew(known, acknowledged, x, hashes.fingerprint);
      if hashes.fingerprint(x) in known {
        var position := FindPosition(x);
        if position.Some? {
          MoveToBack(position.value);
          return;
        }
      }
      Admit(x);
    }

    method ResyncTo(s: State)
      requires Valid()
      modifies this
      ensures Valid() && Now() == Resync(old(Now()), hashes, window, s)
    {
      if s.version.Some? {
        established := Max(established, s.version.value.epoch);
      }
      possible := [s];
      RememberState(s);
    }

    method OnPut(value: string, version: Version)
      requires Valid()
      modifies this
      ensures Valid() && Now() == Resync(old(Now()), hashes, window, State(Some(value), Some(version)))
    {
      ResyncTo(State(Some(value), Some(version)));
    }

    method OnDelete(version: Version)
      requires Valid()
      modifies this
      ensures Valid() && Now() == Resync(old(Now()), hashes, window, State(None, Some(version)))
    {
      ResyncTo(State(None, Some(version)));
    }

    /** `on_ambiguous_put` and `on_ambiguous_delete`. */
    method OnAmbiguous(value: Option<string>)
      requires Valid()
      modifies this
      ensures Valid() && Now() == Ambiguous(old(Now()), hashes, window, State(value, None))
    {
      RememberState(State(value, None));
      possible := possible + [State(value, None)];
    }

    /** Drops the entry that a concrete state replaces, and its place in the index. */
    method DropWild(concrete: Acked)
      requires Valid()
      modifies this`acknowledged, this`known
      ensures Valid() && acknowledged == WithoutWild(old(acknowledged), concrete)
    {
      for i := 0 to |acknowledged|
        invariant forall j :: 0 <= j < i ==> !WildFor(acknowledged[j], concrete)
        invariant acknowledged == old(acknowledged) && known == old(known)
      {
        if WildFor(acknowledged[i], concrete) {
          WithoutWildAt(acknowledged, concrete, i);
          ForgetKeepsIndex(known, acknowledged, i, hashes.fingerprint);
          known := Forgotten(known, hashes.fingerprint(acknowledged[i]));
          acknowledged := RemoveAt(acknowledged, i);
          return;
        }
      }
      WithoutWildNone(acknowledged, concrete);
    }

    /** `observe`. */
    method ObserveRead(read: State) returns (r: Observation)
      requires Valid()
      modifies this
      ensures Valid() && (Now(), r) == Observe(old(Now()), hashes, window, read)
    {
      var found := FirstMatch(possible, read);
      var concrete := AckedOf(hashes, read);
      if found.Some? {
        if found.value.version.None? && read.value.Some? && read.version.Some? {
          DropWild(concrete);
        }
        ResyncTo(read);
        return Matches;
      }
      if AnyAckedMatches(acknowledged, concrete) {
        var first := !rolledBack;
        rolledBack := true;
        var kind := if read.value.None? then ValueLost else if AnyAbsent(possible) then DeleteLost else OlderValue;
        ResyncTo(if read.value.Some? then read else State(None, None));
        return Rollback(first, kind);
      }
      return if dropped > 0 then Undecidable else Impossible;
    }
  }

  lemma {:induction false} WithoutWildAt(list: seq<Acked>, concrete: Acked, i: nat)
    requires i < |list| && WildFor(list[i], concrete) && forall j :: 0 <= j < i ==> !WildFor(list[j], concrete)
    ensures WithoutWild(list, concrete) == RemoveAt(list, i)
  {
    if i > 0 {
      WithoutWildAt(list[1..], concrete, i - 1);
      assert RemoveAt(list, i) == [list[0]] + RemoveAt(list[1..], i - 1);
    }
  }

  lemma {:induction false} WithoutWildNone(list: seq<Acked>, concrete: Acked)
    requires forall j :: 0 <= j < |list| ==> !WildFor(list[j], concrete)
    ensures WithoutWild(list, concrete) == list
  {
    if list != [] {
      WithoutWildNone(list[1..], concrete);
    }
  }

  lemma {:induction false} LastStays(list: seq<Acked>, x: Acked)
    requires list != [] && list[|list| - 1] == x && AllDifferent(list)
    ensures RemoveAt(list, IndexOf(list, x)) + [x] == list
  {
  }

  // ----- Runs against a register -----

  /** The register and the model of it. */
  datatype World = World(register: State, model: Model)

  datatype Event =
    | Put(value: string, version: Version)
    | Delete(version: Version)
    | Unclear(intended: Option<string>, version: Version, took: bool)
    | Read
    | NewRound

  /** One operation on a correct register. An unclear mutation took effect at once or never will. */
  function Next(w: World, h: Hashes, window: nat, e: Event): World {
    match e
    case Put(value, version) =>
      var s := State(Some(value), Some(version));
      World(s, Resync(w.model, h, window, s))
    case Delete(version) =>
      var s := State(None, Some(version));
      World(s, Resync(w.model, h, window, s))
    case Unclear(value, version, took) =>
      World(if took then State(value, Some(version)) else w.register, Ambiguous(w.model, h, window, State(value, None)))
    case Read => World(w.register, Observe(w.model, h, window, w.register).0)
    case NewRound => World(w.register, w.model.(rolledBack := false))
  }

  /** Running a list of operations from a freshly modelled register. */
  function After(start: State, h: Hashes, window: nat, events: seq<Event>): World {
    if events == [] then World(start, Resync(Model([], [], 0, false, 0), h, window, start))
    else Next(After(start, h, window, events[..|events| - 1]), h, window, events[|events| - 1])
  }

  /** Some possible state explains the register. */
  ghost predicate Explained(w: World) {
    exists s :: s in w.model.possible && StateMatches(s, w.register)
  }

  lemma {:induction false} AlwaysExplained(start: State, h: Hashes, window: nat, events: seq<Event>)
    ensures Explained(After(start, h, window, events))
  {
    if events == [] {
      assert start in After(start, h, window, events).model.possible;
    } else {
      var w, e := After(start, h, window, events[..|events| - 1]), events[|events| - 1];
      AlwaysExplained(start, h, window, events[..|events| - 1]);
      var s :| s in w.model.possible && StateMatches(s, w.register);
      var v := Next(w, h, window, e);
      if e.Unclear? {
        assert v.model.possible == w.model.possible + [State(e.intended, None)];
        assert (if e.took then State(e.intended, None) else s) in v.model.possible;
      } else if e.NewRound? {
        assert s in v.model.possible;
      } else {
        assert v.model.possible == [v.register];
        assert v.register in v.model.possible;
      }
    }
  }

  /** After any run in which every unclear mutation took effect at once or never, a read of the register matches. */
  lemma {:induction false} CorrectRegisterMatches(start: State, h: Hashes, window: nat, events: seq<Event>)
    ensures var w := After(start, h, window, events); Observe(w.model, h, window, w.register).1 == Matches
  {
    AlwaysExplained(start, h, window, events);
  }
}
