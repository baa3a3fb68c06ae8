/**
 What the key model's answers mean over whole runs against a register of any behaviour: a read is Impossible only if no
 state the run recorded explains it, and a Rollback only if a recorded state that is no longer possible does.
 */
module Verdicts {
  import opened Topology
  import opened Records
  import opened History

  /** What a run tells the model: an acknowledged mutation, one whose outcome is unknown, a read, or a new round. */
  datatype Op = Settled(value: Option<string>, version: Version) | Unsure(intended: Option<string>) | Seen(read: State) | Round

  function Told(m: Model, h: Hashes, window: nat, op: Op): Model {
    match op
    case Settled(value, version) => Resync(m, h, window, State(value, Some(version)))
    case Unsure(intended) => Ambiguous(m, h, window, State(intended, None))
    case Seen(read) => Observe(m, h, window, read).0
    case Round => m.(rolledBack := false)
  }

  /** The state an operation puts on record, if any: a read is recorded once something explains it. */
  function Noted(m: Model, h: Hashes, window: nat, op: Op): seq<State> {
    match op
    case Settled(value, version) => [State(value, Some(version))]
    case Unsure(intended) => [State(intended, None)]
    case Seen(read) =>
      var answer := Observe(m, h, window, read).1;
      if answer.Matches? then [read]
      else if answer.Rollback? then [if read.value.Some? then read else State(None, None)]
      else []
    case Round => []
  }

  function ModelAfter(start: State, h: Hashes, window: nat, ops: seq<Op>): Model {
    if ops == [] then Resync(Model([], [], 0, false, 0), h, window, start)
    else Told(ModelAfter(start, h, window, ops[..|ops| - 1]), h, window, ops[|ops| - 1])
  }

  /** Every state on record. */
  function Record(start: State, h: Hashes, window: nat, ops: seq<Op>): seq<State> {
    if ops == [] then [start]
    else
      var before := ops[..|ops| - 1];
      Record(start, h, window, before) + Noted(ModelAfter(start, h, window, before), h, window, ops[|ops| - 1])
  }

  // ----- The history and the record -----

  /** A value whose version the run does not know. */
  predicate Wild(s: State) {
    s.value.Some? && s.version.None?
  }

  /** A read has since named a version for the value. */
  ghost predicate Resolved(list: seq<Acked>, a: Acked) {
    exists c :: c in list && c.value == a.value && c.version.Some?
  }

  /** Everything in the history is on record. */
  ghost predicate OnRecord(h: Hashes, list: seq<Acked>, record: seq<State>) {
    forall a :: a in list ==> exists s :: s in record && AckedOf(h, s) == a
  }

  /** Nothing on record is missing from the history, but for values whose version is known by now. */
  ghost predicate Kept(h: Hashes, list: seq<Acked>, record: seq<State>) {
    forall s :: s in record ==> AckedOf(h, s) in list || (Wild(s) && Resolved(list, AckedOf(h, s)))
  }

  lemma RememberedElements(list: seq<Acked>, x: Acked, window: nat, y: Acked)
    ensures y in Remembered(list, x, window) ==> y in list || y == x
    ensures !Evicts(list, x, window) && (y in list || y == x) ==> y in Remembered(list, x, window)
  {
    if x in list {
      var i := IndexOf(list, x);
      assert list == list[..i] + [x] + list[i + 1..];
    }
  }

  lemma {:induction false} WithoutWildElements(list: seq<Acked>, concrete: Acked, y: Acked)
    ensures y in WithoutWild(list, concrete) ==> y in list
    ensures y in list && !WildFor(y, concrete) ==> y in WithoutWild(list, concrete)
  {
    if list != [] {
      assert list == [list[0]] + list[1..];
      WithoutWildElements(list[1..], concrete, y);
    }
  }

  /** Remembering a state puts it on record, and without an eviction loses nothing. */
  lemma RememberKeeps(h: Hashes, m: Model, window: nat, s: State, record: seq<State>)
    ensures OnRecord(h, m.acked, record) ==> OnRecord(h, Remember(m, h, window, s).acked, record + [s])
    ensures m.dropped <= Remember(m, h, window, s).dropped
    ensures Remember(m, h, window, s).dropped == 0 && Kept(h, m.acked, record)
        ==> Kept(h, Remember(m, h, window, s).acked, record + [s])
  {
    var x := AckedOf(h, s);
    var list := Remember(m, h, window, s).acked;
    forall y ensures y in list ==> y in m.acked || y == x
             ensures !Evicts(m.acked, x, window) && (y in m.acked || y == x) ==> y in list {
      RememberedElements(m.acked, x, window, y);
    }
  }

  /** The history without a wildcard that the state about to be remembered replaces. */
  lemma SettlingKeeps(h: Hashes, m: Model, window: nat, read: State, record: seq<State>)
    requires read.value.Some? && read.version.Some?
    ensures var settled := m.(acked := WithoutWild(m.acked, AckedOf(h, read)));
            && (OnRecord(h, m.acked, record) ==> OnRecord(h, Remember(settled, h, window, read).acked, record + [read]))
            && (Remember(settled, h, window, read).dropped == 0 && Kept(h, m.acked, record)
                ==> Kept(h, Remember(settled, h, window, read).acked, record + [read]))
  {
    var x := AckedOf(h, read);
    var settled := m.(acked := WithoutWild(m.acked, x));
    var list := Remember(settled, h, window, read).acked;
    forall y ensures y in list ==> y in m.acked || y == x
             ensures !Evicts(settled.acked, x, window) && ((y in m.acked && !WildFor(y, x)) || y == x) ==> y in list {
      WithoutWildElements(m.acked, x, y);
      RememberedElements(settled.acked, x, window, y);
    }
    if Remember(settled, h, window, read).dropped == 0 && Kept(h, m.acked, record) {
      forall s | s in record ensures AckedOf(h, s) in list || (Wild(s) && Resolved(list, AckedOf(h, s))) {
        SettlingKeepsState(h, m.acked, list, x, s);
      }
    }
  }

  lemma SettlingKeepsState(h: Hashes, prior: seq<Acked>, list: seq<Acked>, x: Acked, s: State)
    requires x.value.Some? && x.version.Some? && x in list && forall y :: y in prior && !WildFor(y, x) ==> y in list
    requires AckedOf(h, s) in prior || (Wild(s) && Resolved(prior, AckedOf(h, s)))
    ensures AckedOf(h, s) in list || (Wild(s) && Resolved(list, AckedOf(h, s)))
  {
    var a := AckedOf(h, s);
    if a in prior && WildFor(a, x) {
      assert x in list && x.value == a.value && x.version.Some?;
    } else if a !in prior {
      var c :| c in prior && c.value == a.value && c.version.Some?;
      assert c in list;
    }
  }

  /** Every operation keeps history and record together. */
  lemma ToldKeeps(h: Hashes, m: Model, window: nat, op: Op, record: seq<State>)
    ensures OnRecord(h, m.acked, record) ==> OnRecord(h, Told(m, h, window, op).acked, record + Noted(m, h, window, op))
    ensures m.dropped <= Told(m, h, window, op).dropped
    ensures Told(m, h, window, op).dropped == 0 && Kept(h, m.acked, record)
        ==> Kept(h, Told(m, h, window, op).acked, record + Noted(m, h, window, op))
  {
    match op
    case Settled(value, version) => RememberKeeps(h, m, window, State(value, Some(version)), record);
    case Unsure(intended) => RememberKeeps(h, m, window, State(intended, None), record);
    case Seen(read) => SeenKeeps(h, m, window, read, record);
    case Round => assert record + [] == record;
  }

  lemma SeenKeeps(h: Hashes, m: Model, window: nat, read: State, record: seq<State>)
    ensures var op := Seen(read);
            && (OnRecord(h, m.acked, record) ==> OnRecord(h, Told(m, h, window, op).acked, record + Noted(m, h, window, op)))
            && m.dropped <= Told(m, h, window, op).dropped
            && (Told(m, h, window, op).dropped == 0 && Kept(h, m.acked, record)
                ==> Kept(h, Told(m, h, window, op).acked, record + Noted(m, h, window, op)))
  {
    var found := FirstMatch(m.possible, read);
    if found.Some? {
      if found.value.version.None? && read.value.Some? && read.version.Some? {
        SettlingKeeps(h, m, window, read, record);
      } else {
        RememberKeeps(h, m, window, read, record);
      }
    } else if AnyAckedMatches(m.acked, AckedOf(h, read)) {
      RememberKeeps(h, m, window, if read.value.Some? then read else State(None, None), record);
    } else {
      assert record + [] == record;
    }
  }

  lemma {:induction false} HistoryAndRecord(start: State, h: Hashes, window: nat, ops: seq<Op>)
    ensures OnRecord(h, ModelAfter(start, h, window, ops).acked, Record(start, h, window, ops))
    ensures ModelAfter(start, h, window, ops).dropped == 0
        ==> Kept(h, ModelAfter(start, h, window, ops).acked, Record(start, h, window, ops))
  {
    if ops == [] {
      RememberKeeps(h, Model([], [], 0, false, 0), window, start, []);
      assert [] + [start] == [start];
    } else {
      var before := ops[..|ops| - 1];
      HistoryAndRecord(start, h, window, before);
      ToldKeeps(h, ModelAfter(start, h, window, before), window, ops[|ops| - 1], Record(start, h, window, before));
    }
  }

  // ----- The answers -----

  /** The four answers, by what the model holds. */
  lemma AnswersAreDecided(m: Model, h: Hashes, window: nat, read: State)
    ensures var answer := Observe(m, h, window, read).1;
            var possible := exists s :: s in m.possible && StateMatches(s, read);
            var remembered := AnyAckedMatches(m.acked, AckedOf(h, read));
            && (answer.Matches? <==> possible)
            && (answer.Rollback? <==> !possible && remembered)
            && (answer.Undecidable? <==> !possible && !remembered && m.dropped > 0)
            && (answer.Impossible? <==> !possible && !remembered && m.dropped == 0)
  {
  }

  /** Something happened among the first n, and no round began after it. */
  ghost predicate Since(happened: nat -> bool, round: nat -> bool, n: nat) {
    exists i: nat :: i < n && happened(i) && NoneBetween(round, i, n)
  }

  ghost predicate NoneBetween(round: nat -> bool, i: nat, n: nat) {
    forall j: nat :: i < j < n ==> !round(j)
  }

  lemma SinceSnoc(happened: nat -> bool, round: nat -> bool, n: nat)
    ensures Since(happened, round, n + 1) <==> happened(n) || (!round(n) && Since(happened, round, n))
  {
    if Since(happened, round, n + 1) {
      var i: nat :| i < n + 1 && happened(i) && NoneBetween(round, i, n + 1);
      if i < n { assert NoneBetween(round, i, n); }
    }
    if happened(n) { assert NoneBetween(round, n, n + 1); }
    if !round(n) && Since(happened, round, n) {
      var i: nat :| i < n && happened(i) && NoneBetween(round, i, n);
      assert NoneBetween(round, i, n + 1);
    }
  }

  /** Some read since the last round began was answered Rollback. */
  ghost predicate RolledBackSince(start: State, h: Hashes, window: nat, ops: seq<Op>) {
    Since(Rollbacks(start, h, window, ops), Rounds(ops), |ops|)
  }

  ghost function Rollbacks(start: State, h: Hashes, window: nat, ops: seq<Op>): nat -> bool {
    (i: nat) => i < |ops| && RollbackAt(start, h, window, ops, i)
  }

  ghost function Rounds(ops: seq<Op>): nat -> bool {
    (i: nat) => i < |ops| && ops[i].Round?
  }

  ghost predicate RollbackAt(start: State, h: Hashes, window: nat, ops: seq<Op>, i: nat)
    requires i < |ops|
  {
    ops[i].Seen? && Observe(ModelAfter(start, h, window, ops[..i]), h, window, ops[i].read).1.Rollback?
  }

  /** Only a new round and a rollback touch the flag. */
  lemma ToldFlag(m: Model, h: Hashes, window: nat, op: Op)
    ensures Told(m, h, window, op).rolledBack
       <==> !op.Round? && (m.rolledBack || (op.Seen? && Observe(m, h, window, op.read).1.Rollback?))
  {
  }

  lemma {:induction false} FlagAt(start: State, h: Hashes, window: nat, ops: seq<Op>, rolled: nat -> bool, round: nat -> bool,
                                  n: nat)
    requires n <= |ops| && forall i: nat :: i < |ops| ==> (rolled(i) <==> RollbackAt(start, h, window, ops, i))
    requires forall i: nat :: i < |ops| ==> (round(i) <==> ops[i].Round?)
    ensures ModelAfter(start, h, window, ops[..n]).rolledBack <==> Since(rolled, round, n)
  {
    if n > 0 {
      FlagAt(start, h, window, ops, rolled, round, n - 1);
      assert ops[..n][..n - 1] == ops[..n - 1];
      ToldFlag(ModelAfter(start, h, window, ops[..n - 1]), h, window, ops[n - 1]);
      SinceSnoc(rolled, round, n - 1);
    }
  }

  lemma {:induction false} FlagMeansRolledBack(start: State, h: Hashes, window: nat, ops: seq<Op>)
    ensures ModelAfter(start, h, window, ops).rolledBack <==> RolledBackSince(start, h, window, ops)
  {
    FlagAt(start, h, window, ops, Rollbacks(start, h, window, ops), Rounds(ops), |ops|);
    assert ops[..|ops|] == ops;
  }

  /** After any run, a rollback is called the first one if and only if no read of the round was answered so before; it lost
      a value if nothing was read, a delete if a value was read where its absence was possible, and else brought an older
      value back. */
  lemma {:induction false} RollbackIsNamed(start: State, h: Hashes, window: nat, ops: seq<Op>, read: State)
    requires Observe(ModelAfter(start, h, window, ops), h, window, read).1.Rollback?
    ensures var m := ModelAfter(start, h, window, ops);
            var answer := Observe(m, h, window, read).1;
            && (answer.first <==> !RolledBackSince(start, h, window, ops))
            && (answer.kind == ValueLost <==> read.value.None?)
            && (answer.kind == DeleteLost <==> read.value.Some? && exists s :: s in m.possible && s.value.None?)
            && (answer.kind == OlderValue <==> read.value.Some? && forall s :: s in m.possible ==> s.value.Some?)
  {
    FlagMeansRolledBack(start, h, window, ops);
  }

  /** After any run, a read is called Impossible only if no state on record explains it; the one exception is a value
      attempted with an unknown version whose version a read has named since. */
  lemma {:induction false} ImpossibleIsUnexplained(start: State, h: Hashes, window: nat, ops: seq<Op>, read: State, s: State)
    requires Observe(ModelAfter(start, h, window, ops), h, window, read).1.Impossible? && s in Record(start, h, window, ops)
    ensures !StateMatches(s, read) || (Wild(s) && Resolved(ModelAfter(start, h, window, ops).acked, AckedOf(h, s)))
  {
    HistoryAndRecord(start, h, window, ops);
  }

  /** After any run, a read is called a Rollback only if no possible state explains it and one on record does, as far as
      digests tell. */
  lemma {:induction false} RollbackIsRecorded(start: State, h: Hashes, window: nat, ops: seq<Op>, read: State)
    requires Observe(ModelAfter(start, h, window, ops), h, window, read).1.Rollback?
    ensures exists s :: s in Record(start, h, window, ops) && AckedMatches(AckedOf(h, s), AckedOf(h, read))
    ensures forall s :: s in ModelAfter(start, h, window, ops).possible ==> !StateMatches(s, read)
  {
    HistoryAndRecord(start, h, window, ops);
    var a :| a in ModelAfter(start, h, window, ops).acked && AckedMatches(a, AckedOf(h, read));
  }

  lemma {:induction false} HistoryFitsRecord(start: State, h: Hashes, window: nat, ops: seq<Op>)
    ensures var m := ModelAfter(start, h, window, ops);
            |m.acked| <= |Record(start, h, window, ops)| && (m.dropped > 0 ==> |Record(start, h, window, ops)| > window)
  {
    if ops != [] {
      HistoryFitsRecord(start, h, window, ops[..|ops| - 1]);
      ToldFits(ModelAfter(start, h, window, ops[..|ops| - 1]), h, window, ops[|ops| - 1]);
    }
  }

  /** An operation remembers at most what it puts on record, and drops something only from a full window. */
  lemma ToldFits(m: Model, h: Hashes, window: nat, op: Op)
    ensures var m' := Told(m, h, window, op);
            && |m'.acked| <= |m.acked| + |Noted(m, h, window, op)|
            && (m'.dropped > m.dropped ==> |m.acked| >= window && |Noted(m, h, window, op)| > 0)
  {
    if op.Seen? {
      ObservedFits(m, h, window, op.read);
    }
  }

  lemma ObservedFits(m: Model, h: Hashes, window: nat, read: State)
    ensures var (m', answer) := Observe(m, h, window, read);
            && |m'.acked| <= |m.acked| + (if answer.Matches? || answer.Rollback? then 1 else 0)
            && (m'.dropped > m.dropped ==> |m.acked| >= window && (answer.Matches? || answer.Rollback?))
  {
    WithoutWildShrinks(m.acked, AckedOf(h, read));
  }

  lemma {:induction false} WithoutWildShrinks(list: seq<Acked>, concrete: Acked)
    ensures |WithoutWild(list, concrete)| <= |list|
  {
    if list != [] { WithoutWildShrinks(list[1..], concrete); }
  }

  /** After any run, a read is called Undecidable only if the run put more states on record than the window holds. */
  lemma {:induction false} UndecidableNeedsOverflow(start: State, h: Hashes, window: nat, ops: seq<Op>, read: State)
    requires Observe(ModelAfter(start, h, window, ops), h, window, read).1.Undecidable?
    ensures |Record(start, h, window, ops)| > window
  {
    HistoryFitsRecord(start, h, window, ops);
  }
}
