/**
 The data plane of one epoch: clients write, streams deliver, replicas are copied, verified and admitted, and the
 coordinator fences every member, takes a snapshot and waits for streams to catch up before it publishes.

 An epoch may start with admissions it inherits from the one before. Nodes install its topology one by one, and until a
 node has done so it may still apply entries of older streams.

 A node process that stops simply takes no more steps. A restarted process of a member has another instance id, which
 neither registration nor the catch-up check accepts, so it never stands in for the old one.
 */
module MergeRun {
  import opened Ring
  import opened Topology
  import opened Cluster
  import opened Merge

  /** One applied mutation. */
  datatype Write = Write(id: nat, token: Token)

  /** The placement of the epoch and its desired replica tasks. */
  datatype Setting = Setting(owner: Token -> NodeId, followers: Token -> seq<NodeId>, members: set<NodeId>,
                             desired: TaskKey -> bool)

  function PairOf(k: TaskKey): Pair {
    Pair(k.owner, k.node)
  }

  predicate InKey(k: TaskKey, t: Token) {
    InInterval(k.start, k.end, t)
  }

  /** The stream carries the token: its owner owns it and its follower follows it. */
  predicate Carries(e: Setting, p: Pair, t: Token) {
    e.owner(t) == p.owner && p.follower in e.followers(t)
  }

  ghost predicate SettingSound(e: Setting) {
    && (forall t: Token :: e.owner(t) !in e.followers(t))
    && (forall t: Token :: e.owner(t) in e.members)
    && (forall k: TaskKey :: e.desired(k) ==> k.owner in e.members && k.node in e.members)
    && (forall k: TaskKey, t: Token :: e.desired(k) && InKey(k, t) ==> Carries(e, PairOf(k), t))
  }

  datatype Executor =
    | Idle
    | Fencing(target: Snapshot, done: set<NodeId>)
    | Checking(target: Snapshot, snapshot: ClusterState, head: Option<(Pair, nat)>, caughtUp: set<Pair>)

  /** An entry of an older epoch's stream that may still reach a node. */
  datatype Late = Late(node: NodeId, write: Write)

  /** `held` is what each process holds, `stream` the entries each owner issued to each follower in this epoch,
      `applied` the follower's cursor, `seeded` the tasks whose follower was verified equal to its owner when its stream
      began, and `installed` the nodes that work in this epoch. */
  datatype State = State(st: ClusterState, held: map<NodeId, set<Write>>, stream: map<Pair, seq<Write>>,
                         applied: map<Pair, nat>, seeded: set<TaskKey>, installed: set<NodeId>, late: set<Late>,
                         fences: set<NodeId>, exec: Executor)

  function Held(s: State, n: NodeId): set<Write> {
    if n in s.held then s.held[n] else {}
  }

  function Stream(s: State, p: Pair): seq<Write> {
    if p in s.stream then s.stream[p] else []
  }

  function Applied(s: State, p: Pair): nat {
    if p in s.applied then s.applied[p] else 0
  }

  // ----- Steps of the nodes -----

  /** An owner without a fence applies a write and appends it to the streams of the token's followers. */
  ghost predicate ClientWrite(e: Setting, s: State, s': State, w: Write) {
    && e.owner(w.token) in s.installed && e.owner(w.token) !in s.fences
    && s' == s.(held := s.held[e.owner(w.token) := Held(s, e.owner(w.token)) + {w}], stream := s'.stream)
    && forall p :: Stream(s', p) == if Carries(e, p, w.token) then Stream(s, p) + [w] else Stream(s, p)
  }

  /** A follower applies the next entry of a stream. */
  ghost predicate Deliver(s: State, s': State, p: Pair) {
    && p.follower in s.installed && Applied(s, p) < |Stream(s, p)|
    && s' == s.(held := s.held[p.follower := Held(s, p.follower) + {Stream(s, p)[Applied(s, p)]}],
                applied := s.applied[p := Applied(s, p) + 1])
  }

  /** A node that has not installed the epoch applies an older entry. */
  ghost predicate DeliverLate(s: State, s': State, l: Late) {
    && l in s.late && l.node !in s.installed
    && s' == s.(held := s.held[l.node := Held(s, l.node) + {l.write}])
  }

  ghost predicate Install(s: State, s': State, n: NodeId) {
    s' == s.(installed := s.installed + {n})
  }

  function Replaced(s: State, o: NodeId, d: NodeId, moved: Token -> bool): set<Write> {
    (set w | w in Held(s, d) && !moved(w.token)) + (set w | w in Held(s, o) && moved(w.token))
  }

  /** A copied, paused and verified range replaces what the destination held of it. */
  ghost predicate Copy(e: Setting, s: State, s': State, o: NodeId, d: NodeId, moved: Token -> bool) {
    && o != d && (forall t: Token :: moved(t) ==> e.owner(t) == o)
    && s' == s.(held := s.held[d := Replaced(s, o, d, moved)])
  }

  /** Cleanup drops only what the node is no replica of. */
  ghost predicate Discard(e: Setting, s: State, s': State, n: NodeId, kept: set<Write>) {
    && kept <= Held(s, n)
    && (forall w :: w in Held(s, n) && (e.owner(w.token) == n || n in e.followers(w.token)) ==> w in kept)
    && s' == s.(held := s.held[n := kept])
  }

  /** A node outside the topology comes back as another, empty process. */
  ghost predicate Rejoin(e: Setting, s: State, s': State, n: NodeId) {
    n !in e.members && s' == s.(held := s.held[n := {}])
  }

  /** Seeding ends: with all of the stream's ranges verified equal, the follower installs the stream head as its
      checkpoint. */
  ghost predicate Checkpoint(e: Setting, s: State, s': State, p: Pair) {
    && s.exec.Idle? && p.owner in s.installed && p.follower in s.installed
    && (forall w: Write :: Carries(e, p, w.token) ==> (w in Held(s, p.owner) <==> w in Held(s, p.follower)))
    && s' == s.(applied := s.applied[p := |Stream(s, p)|], seeded := s'.seeded)
    && s.seeded <= s'.seeded
    && (forall k :: k in s'.seeded && k !in s.seeded ==> e.desired(k) && PairOf(k) == p)
  }

  // ----- Steps of the coordinator -----

  /** A new admission rests on a seeded task of the registered process. */
  ghost predicate Admissible(e: Setting, s: State, st: ClusterState, a: Admission) {
    e.desired(KeyOf(a)) && KeyOf(a) in s.seeded && a.node in st.instances && st.instances[a.node] == a.instance
  }

  /** Any durable step of the coordinator within the epoch. A member keeps its registered process and its fence, and
      admissions are stored only while no transition holds the execution lock. */
  ghost predicate Durable(e: Setting, s: State, s': State) {
    && s' == s.(st := s'.st)
    && s'.st.committed == s.st.committed
    && (forall n :: n in e.members && n in s.st.instances ==> n in s'.st.instances && s'.st.instances[n] == s.st.instances[n])
    && (forall n :: n in e.members && n in s.st.fenced ==> n in s'.st.fenced)
    && (forall a :: a in s'.st.tasks.admissions ==>
          a in s.st.tasks.admissions || (s.exec.Idle? && Admissible(e, s, s'.st, a)))
  }

  ghost predicate StartFencing(s: State, s': State, target: Snapshot) {
    s.exec.Idle? && s' == s.(exec := Fencing(target, {}))
  }

  /** A member acknowledges the fence; it must work in this epoch to do so. */
  ghost predicate FenceMember(s: State, s': State, n: NodeId) {
    && s.exec.Fencing? && n in s.installed
    && s' == s.(fences := s.fences + {n}, exec := s.exec.(done := s.exec.done + {n}))
  }

  /** All members acknowledged the fence; the coordinator reads its durable state. */
  ghost predicate TakeSnapshot(e: Setting, s: State, s': State) {
    && ((s.exec.Fencing? && e.members <= s.exec.done) || s.exec.Checking?)
    && s' == s.(exec := Checking(s.exec.target, s.st, None, {}))
  }

  /** The catch-up check asks the owner for its head first. */
  ghost predicate ReadHead(s: State, s': State, p: Pair) {
    s.exec.Checking? && s' == s.(exec := s.exec.(head := Some((p, |Stream(s, p)|))))
  }

  /** Then it asks the follower for its cursor and compares. */
  ghost predicate ReadCursor(s: State, s': State) {
    && s.exec.Checking? && s.exec.head.Some?
    && var (p, n) := s.exec.head.value;
       s' == s.(exec := s.exec.(head := None,
                                caughtUp := if Applied(s, p) >= n then s.exec.caughtUp + {p} else s.exec.caughtUp))
  }

  /** A transition gives up, or fences left from an earlier one are lifted. */
  ghost predicate Release(s: State, s': State) {
    s'.fences <= s.fences && s' == s.(exec := Idle, fences := s'.fences)
  }

  ghost predicate Control(e: Setting, s: State, s': State) {
    || Durable(e, s, s')
    || (exists target :: StartFencing(s, s', target))
    || (exists n :: FenceMember(s, s', n))
    || TakeSnapshot(e, s, s')
    || (exists p :: ReadHead(s, s', p))
    || ReadCursor(s, s')
    || Release(s, s')
  }

  ghost predicate Data(e: Setting, s: State, s': State) {
    || (exists w :: ClientWrite(e, s, s', w))
    || (exists p :: Deliver(s, s', p))
    || (exists l :: DeliverLate(s, s', l))
    || (exists n :: Install(s, s', n))
    || (exists o, d, moved :: Copy(e, s, s', o, d, moved))
    || (exists n, kept :: Discard(e, s, s', n, kept))
    || (exists n :: Rejoin(e, s, s', n))
    || (exists p :: Checkpoint(e, s, s', p))
  }

  ghost predicate Next(e: Setting, s: State, s': State) {
    Data(e, s, s') || Control(e, s, s')
  }

  // ----- Invariant -----

  /** A stream's entries are the owner's own. */
  ghost predicate StreamSound(e: Setting, s: State, p: Pair) {
    && Applied(s, p) <= |Stream(s, p)|
    && (forall w :: w in Stream(s, p) ==> Carries(e, p, w.token) && w in Held(s, p.owner))
  }

  /** Owner and follower of a seeded task hold the same writes of its range, but for what is on the way; and an older
      entry that may still reach either is one the owner holds. */
  ghost predicate KeySound(e: Setting, s: State, k: TaskKey) {
    && e.desired(k)
    && (forall w :: w in Held(s, k.owner) && InKey(k, w.token)
                ==> w in Held(s, k.node) || w in Stream(s, PairOf(k))[CursorOf(s, PairOf(k))..])
    && (forall w :: w in Held(s, k.node) && InKey(k, w.token) ==> w in Held(s, k.owner))
    && (forall l :: l in s.late && l.node !in s.installed && (l.node == k.owner || l.node == k.node) && InKey(k, l.write.token)
                ==> l.write in Held(s, k.owner))
  }

  function CursorOf(s: State, p: Pair): (n: nat)
    ensures n <= |Stream(s, p)|
  {
    Min(Applied(s, p), |Stream(s, p)|)
  }

  ghost predicate DataSound(e: Setting, s: State) {
    (forall p :: StreamSound(e, s, p)) && (forall k :: k in s.seeded ==> KeySound(e, s, k))
  }

  /** An admission names a desired task and the registered process; unless its node is fenced, the task is seeded. */
  ghost predicate AdmissionSound(e: Setting, seeded: set<TaskKey>, st: ClusterState, a: Admission) {
    && e.desired(KeyOf(a)) && a.node in st.instances && st.instances[a.node] == a.instance
    && (KeyOf(a) in seeded || a.node in st.fenced)
  }

  ghost predicate AdmissionsSound(e: Setting, seeded: set<TaskKey>, st: ClusterState) {
    forall a :: a in st.tasks.admissions ==> AdmissionSound(e, seeded, st, a)
  }

  ghost predicate ExecSound(e: Setting, s: State) {
    match s.exec
    case Idle => true
    case Fencing(_, done) => done <= s.fences && done <= s.installed
    case Checking(_, snapshot, head, caughtUp) =>
      && e.members <= s.fences && e.members <= s.installed
      && snapshot.committed == s.st.committed && AdmissionsSound(e, s.seeded, snapshot)
      && (forall a :: a in s.st.tasks.admissions ==> a in snapshot.tasks.admissions)
      && (forall n :: n in e.members && n in snapshot.fenced ==> n in s.st.fenced)
      && (head.Some? ==> head.value.1 >= |Stream(s, head.value.0)|)
      && (forall p :: p in caughtUp ==> Applied(s, p) >= |Stream(s, p)|)
  }

  ghost predicate Inv(e: Setting, s: State) {
    DataSound(e, s) && AdmissionsSound(e, s.seeded, s.st) && ExecSound(e, s)
  }

  /** A task's range is owned by its owner and not by its follower. */
  lemma KeyPlacement(e: Setting, k: TaskKey, t: Token)
    requires SettingSound(e) && e.desired(k) && InKey(k, t)
    ensures e.owner(t) == k.owner && k.node in e.followers(t) && k.owner != k.node
  {
    assert Carries(e, PairOf(k), t);
  }

  // ----- Every step keeps the data sound -----

  lemma WriteKeepsKey(e: Setting, s: State, s': State, w: Write, k: TaskKey)
    requires SettingSound(e) && ClientWrite(e, s, s', w) && StreamSound(e, s, PairOf(k)) && KeySound(e, s, k)
    ensures KeySound(e, s', k)
  {
    var p := PairOf(k);
    if InKey(k, w.token) {
      KeyPlacement(e, k, w.token);
    }
    if Carries(e, p, w.token) {
      var c := CursorOf(s, p);
      assert (Stream(s, p) + [w])[c..] == Stream(s, p)[c..] + [w];
    }
    forall x | x in Held(s', k.node) && InKey(k, x.token) ensures x in Held(s', k.owner) {
      KeyPlacement(e, k, x.token);
    }
  }

  lemma WriteKeepsData(e: Setting, s: State, s': State, w: Write)
    requires SettingSound(e) && DataSound(e, s) && ClientWrite(e, s, s', w)
    ensures DataSound(e, s')
  {
    forall p ensures StreamSound(e, s', p) {
      assert StreamSound(e, s, p);
    }
    forall k | k in s'.seeded ensures KeySound(e, s', k) {
      assert StreamSound(e, s, PairOf(k)) && KeySound(e, s, k);
      WriteKeepsKey(e, s, s', w, k);
    }
  }

  lemma DeliverKeepsKey(e: Setting, s: State, s': State, p: Pair, k: TaskKey)
    requires SettingSound(e) && Deliver(s, s', p) && StreamSound(e, s, p) && StreamSound(e, s, PairOf(k)) && KeySound(e, s, k)
    ensures KeySound(e, s', k)
  {
    var c, w := Applied(s, p), Stream(s, p)[Applied(s, p)];
    assert w in Stream(s, p);
    assert Stream(s, p)[c..] == [w] + Stream(s, p)[c + 1..];
    if InKey(k, w.token) {
      KeyPlacement(e, k, w.token);
    }
    assert e.owner(w.token) == p.owner && p.follower in e.followers(w.token) && e.owner(w.token) !in e.followers(w.token);
  }

  lemma DeliverKeepsData(e: Setting, s: State, s': State, p: Pair)
    requires SettingSound(e) && DataSound(e, s) && Deliver(s, s', p)
    ensures DataSound(e, s')
  {
    forall q ensures StreamSound(e, s', q) {
      assert StreamSound(e, s, q);
    }
    forall k | k in s'.seeded ensures KeySound(e, s', k) {
      assert StreamSound(e, s, p) && StreamSound(e, s, PairOf(k)) && KeySound(e, s, k);
      DeliverKeepsKey(e, s, s', p, k);
    }
  }

  lemma LateKeepsData(e: Setting, s: State, s': State, l: Late)
    requires SettingSound(e) && DataSound(e, s) && DeliverLate(s, s', l)
    ensures DataSound(e, s')
  {
    forall q ensures StreamSound(e, s', q) {
      assert StreamSound(e, s, q);
    }
    forall k | k in s'.seeded ensures KeySound(e, s', k) {
      assert KeySound(e, s, k);
    }
  }

  lemma InstallKeepsData(e: Setting, s: State, s': State, n: NodeId)
    requires DataSound(e, s) && Install(s, s', n)
    ensures DataSound(e, s')
  {
    forall q ensures StreamSound(e, s', q) {
      assert StreamSound(e, s, q);
    }
    forall k | k in s'.seeded ensures KeySound(e, s', k) {
      assert KeySound(e, s, k);
    }
  }

  /** What one node holds changes, but every owner keeps the writes of its tokens, and followers keep or take the owner's. */
  ghost predicate HeldSoundly(e: Setting, s: State, s': State, n: NodeId) {
    && s' == s.(held := s.held[n := Held(s', n)])
    && (forall w: Write :: e.owner(w.token) == n ==> (w in Held(s', n) <==> w in Held(s, n)))
    && (forall w: Write :: n in e.followers(w.token) && w in Held(s, n) && w in Held(s, e.owner(w.token)) ==> w in Held(s', n))
    && (forall w: Write :: n in e.followers(w.token) && w in Held(s', n) && w !in Held(s, n)
                       ==> w in Held(s, e.owner(w.token)))
  }

  lemma HeldSoundlyKeepsKey(e: Setting, s: State, s': State, n: NodeId, k: TaskKey)
    requires SettingSound(e) && HeldSoundly(e, s, s', n) && KeySound(e, s, k)
    ensures KeySound(e, s', k)
  {
    forall t: Token | InKey(k, t) ensures e.owner(t) == k.owner && k.node in e.followers(t) && k.owner != k.node {
      KeyPlacement(e, k, t);
    }
    forall w: Write | InKey(k, w.token) ensures w in Held(s', k.owner) <==> w in Held(s, k.owner) {
    }
  }

  lemma HeldSoundlyKeepsData(e: Setting, s: State, s': State, n: NodeId)
    requires SettingSound(e) && DataSound(e, s) && HeldSoundly(e, s, s', n)
    ensures DataSound(e, s')
  {
    forall q ensures StreamSound(e, s', q) {
      assert StreamSound(e, s, q);
    }
    forall k | k in s'.seeded ensures KeySound(e, s', k) {
      HeldSoundlyKeepsKey(e, s, s', n, k);
    }
  }

  lemma CopyIsSound(e: Setting, s: State, s': State, o: NodeId, d: NodeId, moved: Token -> bool)
    requires Copy(e, s, s', o, d, moved)
    ensures HeldSoundly(e, s, s', d)
  {
  }

  lemma DiscardIsSound(e: Setting, s: State, s': State, n: NodeId, kept: set<Write>)
    requires Discard(e, s, s', n, kept)
    ensures HeldSoundly(e, s, s', n)
  {
  }

  lemma RejoinKeepsData(e: Setting, s: State, s': State, n: NodeId)
    requires SettingSound(e) && DataSound(e, s) && Rejoin(e, s, s', n)
    ensures DataSound(e, s')
  {
    forall q ensures StreamSound(e, s', q) {
      assert StreamSound(e, s, q);
    }
    forall k | k in s'.seeded ensures KeySound(e, s', k) {
      assert KeySound(e, s, k);
    }
  }

  lemma CheckpointKeepsData(e: Setting, s: State, s': State, p: Pair)
    requires SettingSound(e) && DataSound(e, s) && Checkpoint(e, s, s', p)
    ensures DataSound(e, s')
  {
    forall q ensures StreamSound(e, s', q) {
      assert StreamSound(e, s, q);
    }
    forall k | k in s'.seeded ensures KeySound(e, s', k) {
      if PairOf(k) == p {
        assert e.desired(k) by {
          if k in s.seeded { assert KeySound(e, s, k); }
        }
        SeededByCheckpoint(e, s, s', k);
      } else {
        assert KeySound(e, s, k);
      }
    }
  }

  lemma SeededByCheckpoint(e: Setting, s: State, s': State, k: TaskKey)
    requires SettingSound(e) && Checkpoint(e, s, s', PairOf(k)) && e.desired(k)
    ensures KeySound(e, s', k)
  {
    forall t: Token | InKey(k, t) ensures Carries(e, PairOf(k), t) {
    }
  }

  lemma DataKeepsData(e: Setting, s: State, s': State)
    requires SettingSound(e) && DataSound(e, s) && Data(e, s, s')
    ensures DataSound(e, s')
  {
    if w :| ClientWrite(e, s, s', w) {
      WriteKeepsData(e, s, s', w);
    } else if p :| Deliver(s, s', p) {
      DeliverKeepsData(e, s, s', p);
    } else if l :| DeliverLate(s, s', l) {
      LateKeepsData(e, s, s', l);
    } else if n :| Install(s, s', n) {
      InstallKeepsData(e, s, s', n);
    } else if o, d, moved :| Copy(e, s, s', o, d, moved) {
      CopyIsSound(e, s, s', o, d, moved);
      HeldSoundlyKeepsData(e, s, s', d);
    } else if n, kept :| Discard(e, s, s', n, kept) {
      DiscardIsSound(e, s, s', n, kept);
      HeldSoundlyKeepsData(e, s, s', n);
    } else if n :| Rejoin(e, s, s', n) {
      RejoinKeepsData(e, s, s', n);
    } else {
      var p :| Checkpoint(e, s, s', p);
      CheckpointKeepsData(e, s, s', p);
    }
  }

  /** What the steps of the nodes leave alone: the coordinator's side and, under its fence, the streams' heads. */
  ghost predicate NodesOnly(s: State, s': State) {
    && s'.st == s.st && s'.exec == s.exec && s'.fences == s.fences
    && s.installed <= s'.installed && s.seeded <= s'.seeded
    && (s.exec.Checking? ==> forall p :: Stream(s', p) == Stream(s, p) && Applied(s', p) >= Applied(s, p))
  }

  lemma DataIsNodesOnly(e: Setting, s: State, s': State)
    requires SettingSound(e) && ExecSound(e, s) && Data(e, s, s')
    ensures NodesOnly(s, s')
  {
    if w :| ClientWrite(e, s, s', w) {
      WriteIsNodesOnly(e, s, s', w);
    } else if p :| Deliver(s, s', p) {
      DeliverIsNodesOnly(s, s', p);
    } else if p :| Checkpoint(e, s, s', p) {
    } else {
      assert s'.stream == s.stream && s'.applied == s.applied && s'.seeded == s.seeded;
      StreamsSame(s, s');
    }
  }

  lemma StreamsSame(s: State, s': State)
    requires s'.stream == s.stream && s'.applied == s.applied
    ensures forall p :: Stream(s', p) == Stream(s, p) && Applied(s', p) == Applied(s, p)
  {
  }

  lemma WriteIsNodesOnly(e: Setting, s: State, s': State, w: Write)
    requires SettingSound(e) && ExecSound(e, s) && ClientWrite(e, s, s', w)
    ensures NodesOnly(s, s')
  {
  }

  lemma DeliverIsNodesOnly(s: State, s': State, p: Pair)
    requires Deliver(s, s', p)
    ensures NodesOnly(s, s')
  {
    forall q ensures Stream(s', q) == Stream(s, q) && Applied(s', q) >= Applied(s, q) {
    }
  }

  lemma NodesOnlyKeepsExec(e: Setting, s: State, s': State)
    requires AdmissionsSound(e, s.seeded, s.st) && ExecSound(e, s) && NodesOnly(s, s')
    ensures AdmissionsSound(e, s'.seeded, s'.st) && ExecSound(e, s')
  {
    forall a | a in s'.st.tasks.admissions ensures AdmissionSound(e, s'.seeded, s'.st, a) {
      assert AdmissionSound(e, s.seeded, s.st, a);
    }
    if s.exec.Checking? {
      forall a | a in s.exec.snapshot.tasks.admissions ensures AdmissionSound(e, s'.seeded, s.exec.snapshot, a) {
        assert AdmissionSound(e, s.seeded, s.exec.snapshot, a);
      }
    }
  }

  lemma ControlKeepsInv(e: Setting, s: State, s': State)
    requires SettingSound(e) && Inv(e, s) && Control(e, s, s')
    ensures Inv(e, s')
  {
    SameData(e, s, s');
    if Durable(e, s, s') {
      DurableKeepsAdmissions(e, s, s');
    } else {
      ControlKeepsExec(e, s, s');
    }
  }

  lemma ControlKeepsExec(e: Setting, s: State, s': State)
    requires AdmissionsSound(e, s.seeded, s.st) && ExecSound(e, s) && Control(e, s, s') && !Durable(e, s, s')
    ensures ExecSound(e, s') && AdmissionsSound(e, s'.seeded, s'.st)
  {
    if ReadCursor(s, s') {
      ReadCursorKeepsExec(e, s, s');
    } else if p :| ReadHead(s, s', p) {
      StreamsSame(s, s');
    } else if n :| FenceMember(s, s', n) {
    } else {
      assert s'.exec.Idle? || s'.exec.Fencing? || TakeSnapshot(e, s, s');
    }
  }

  lemma SameData(e: Setting, s: State, s': State)
    requires DataSound(e, s) && s'.held == s.held && s'.stream == s.stream && s'.applied == s.applied
    requires s'.seeded == s.seeded && s'.installed == s.installed && s'.late == s.late
    ensures DataSound(e, s')
    ensures forall p :: Stream(s', p) == Stream(s, p) && Applied(s', p) == Applied(s, p)
  {
    forall q ensures StreamSound(e, s', q) {
      assert StreamSound(e, s, q);
    }
    forall k | k in s'.seeded ensures KeySound(e, s', k) {
      assert KeySound(e, s, k);
    }
  }

  lemma DurableKeepsAdmissions(e: Setting, s: State, s': State)
    requires SettingSound(e) && Inv(e, s) && Durable(e, s, s')
    ensures AdmissionsSound(e, s'.seeded, s'.st) && ExecSound(e, s')
  {
    forall a | a in s'.st.tasks.admissions ensures AdmissionSound(e, s'.seeded, s'.st, a) {
      if a in s.st.tasks.admissions {
        assert AdmissionSound(e, s.seeded, s.st, a);
      }
    }
    assert forall p :: Stream(s', p) == Stream(s, p) && Applied(s', p) == Applied(s, p);
  }

  lemma ReadCursorKeepsExec(e: Setting, s: State, s': State)
    requires ExecSound(e, s) && ReadCursor(s, s')
    ensures ExecSound(e, s')
  {
    assert forall p :: Stream(s', p) == Stream(s, p) && Applied(s', p) == Applied(s, p);
  }

  lemma DataKeepsInv(e: Setting, s: State, s': State)
    requires SettingSound(e) && Inv(e, s) && Data(e, s, s')
    ensures Inv(e, s') && s'.st == s.st
  {
    DataKeepsData(e, s, s');
    DataIsNodesOnly(e, s, s');
    NodesOnlyKeepsExec(e, s, s');
  }

  lemma NextKeepsInv(e: Setting, s: State, s': State)
    requires SettingSound(e) && Inv(e, s) && Next(e, s, s')
    ensures Inv(e, s')
  {
    if Data(e, s, s') {
      DataKeepsInv(e, s, s');
    } else {
      ControlKeepsInv(e, s, s');
    }
  }

  /** Once its stream is caught up, owner and follower of a seeded task hold exactly the same writes of its range. */
  lemma CaughtUpIsEqual(e: Setting, s: State, k: TaskKey, w: Write)
    requires DataSound(e, s) && k in s.seeded && Applied(s, PairOf(k)) >= |Stream(s, PairOf(k))| && InKey(k, w.token)
    ensures w in Held(s, k.owner) <==> w in Held(s, k.node)
  {
    assert KeySound(e, s, k);
    assert Stream(s, PairOf(k))[CursorOf(s, PairOf(k))..] == [];
  }

  /** Nothing is claimed of an epoch that starts without admissions. */
  lemma NothingAdmitted(e: Setting, s: State)
    requires s.stream == map[] && s.applied == map[] && s.seeded == {} && s.exec == Idle && s.st.tasks.admissions == []
    ensures Inv(e, s)
  {
    forall p ensures StreamSound(e, s, p) {
    }
  }

  // ----- The next epoch -----

  /** Older entries that may still reach a node once the next epoch is published. */
  ghost predicate LeftBehind(s: State, l: Late) {
    (l in s.late && l.node !in s.installed) || (exists p: Pair :: p.follower == l.node && l.write in Stream(s, p))
  }

  /** The next epoch starts with new streams; what the processes hold, and what is still on the way, stays. */
  ghost predicate Begins(s: State, s': State) {
    && s'.held == s.held && s'.stream == map[] && s'.applied == map[] && s'.installed == {} && s'.exec == Idle
    && s'.fences == s.fences && forall l :: l in s'.late ==> LeftBehind(s, l)
  }

  /** A task of the next epoch is sound from its start if its owner and follower agree on its range, and the owner holds
      every entry the last epoch's streams still carry for it. */
  lemma KeyBegins(e: Setting, s: State, e': Setting, s': State, k: TaskKey)
    requires DataSound(e, s) && Begins(s, s') && e'.desired(k)
    requires k.owner in s.installed && k.node in s.installed
    requires forall w: Write :: InKey(k, w.token) ==> (w in Held(s, k.owner) <==> w in Held(s, k.node))
    requires forall w: Write :: InKey(k, w.token) && w in Held(s, e.owner(w.token)) ==> w in Held(s, k.owner)
    ensures KeySound(e', s', k)
  {
    forall l | l in s'.late && (l.node == k.owner || l.node == k.node) && InKey(k, l.write.token)
      ensures l.write in Held(s', k.owner)
    {
      assert LeftBehind(s, l);
      var p: Pair :| p.follower == l.node && l.write in Stream(s, p);
      assert StreamSound(e, s, p);
    }
  }
}
