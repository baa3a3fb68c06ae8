/**
 How a failure is confirmed: a member without a current lease has failed, and one with a lease only if two other leased
 members kept failing to reach it. The coordinator keeps the first and the last of a peer's failing reports; this is the
 same as the whole history of reports showing no longer silence and no success.
 */
module Failure {
  import opened Ring
  import opened Topology
  import opened Placement
  import opened Cluster
  import opened Removal

  const REPORT_FRESHNESS: nat := 2_000_000_000

  datatype Report = Report(first: Instant, last: Instant)

  /** What each reporter last told about each peer: the first is the peer, the second the reporter. */
  type Reports = map<(NodeId, NodeId), Report>

  /** What changes the reports: an accepted probe result, and the completed removal of a node. */
  datatype Event = Probe(peer: NodeId, reporter: NodeId, reachable: bool, at: Instant) | Forget(node: NodeId, at: Instant)

  /** `report_peer_health` accepts only the current process of a leased member about another member. */
  predicate MayReport(st: ClusterState, grants: map<NodeId, Grant>, reporter: NodeId, instance: Instance, peer: NodeId,
                      epoch: nat, now: Instant)
  {
    && reporter != peer && peer != EMPTY_ID && epoch == st.committed.epoch && peer in Ids(st.committed.members)
    && reporter in st.instances && st.instances[reporter] == instance && HasLease(st, grants, reporter, now)
  }

  function Refreshed(reports: Reports, key: (NodeId, NodeId), now: Instant): Report {
    if key in reports && reports[key].last + REPORT_FRESHNESS >= now then Report(reports[key].first, now) else Report(now, now)
  }

  function Noted(reports: Reports, e: Event): Reports {
    match e
    case Probe(peer, reporter, reachable, at) =>
      if reachable then reports - {(peer, reporter)}
      else reports[(peer, reporter) := Refreshed(reports, (peer, reporter), at)]
    case Forget(node, _) =>
      map k | k in reports && k.0 != node && k.1 != node :: reports[k]
  }

  function AllNoted(events: seq<Event>): Reports {
    if events == [] then map[] else Noted(AllNoted(events[..|events| - 1]), events[|events| - 1])
  }

  // ----- Confirmation -----

  function LeaseNanos(st: ClusterState): nat {
    st.committed.timings.leaseDurationMillis * 1_000_000
  }

  /** The report is old enough to count and fresh enough to be true. */
  predicate Telling(r: Report, lease: nat, now: Instant) {
    r.first + lease <= now <= r.last + REPORT_FRESHNESS
  }

  function Witnesses(st: ClusterState, grants: map<NodeId, Grant>, reports: Reports, target: NodeId, now: Instant)
    : set<NodeId>
  {
    set k | k in reports && k.0 == target && k.1 != target && HasLease(st, grants, k.1, now)
            && Telling(reports[k], LeaseNanos(st), now) :: k.1
  }

  /** `failure_confirmed`. */
  predicate FailureConfirmed(st: ClusterState, grants: map<NodeId, Grant>, reports: Reports, target: NodeId, now: Instant) {
    !HasLease(st, grants, target, now) || |Witnesses(st, grants, reports, target, now)| >= 2
  }

  lemma TwoElements(s: set<NodeId>)
    ensures |s| >= 2 <==> exists a, b :: a in s && b in s && a != b
  {
    if |s| >= 2 {
      var a :| a in s;
      assert |s - {a}| == |s| - 1;
      var b :| b in s - {a};
      assert b in s && a != b;
    }
    if a, b :| a in s && b in s && a != b {
      assert {a, b} <= s && |{a, b}| == 2;
      assert s == {a, b} + (s - {a, b});
    }
  }

  // ----- What the two instants remember -----

  predicate Hit(e: Event, key: (NodeId, NodeId)) {
    e.Probe? && (e.peer, e.reporter) == key && !e.reachable
  }

  /** The reporter reached the peer, or one of them was removed. */
  predicate Break(e: Event, key: (NodeId, NodeId)) {
    if e.Probe? then (e.peer, e.reporter) == key && e.reachable else e.node == key.0 || e.node == key.1
  }

  ghost predicate Ordered(events: seq<Event>) {
    forall i, j :: 0 <= i <= j < |events| ==> events[i].at <= events[j].at
  }

  ghost predicate Unbroken(events: seq<Event>, key: (NodeId, NodeId), i: nat) {
    forall j :: i <= j < |events| ==> !Break(events[j], key)
  }

  /** A failing report since i was less than the freshness ago at instant x. */
  ghost predicate FreshAt(events: seq<Event>, key: (NodeId, NodeId), i: nat, x: Instant) {
    exists j :: i <= j < |events| && Hit(events[j], key) && events[j].at <= x < events[j].at + REPORT_FRESHNESS
  }

  /** Since the report at i the peer was never reached, and at no instant up to `now` was the last report stale. */
  ghost predicate FailingSince(events: seq<Event>, key: (NodeId, NodeId), i: nat, now: Instant) {
    && i < |events| && Hit(events[i], key) && Unbroken(events, key, i)
    && forall x: Instant :: events[i].at <= x < now ==> FreshAt(events, key, i, x)
  }

  /** The peer has been failing without interruption for the whole lease duration. */
  ghost predicate KeptFailing(events: seq<Event>, peer: NodeId, reporter: NodeId, lease: nat, now: Instant) {
    exists i: nat :: FailingSince(events, (peer, reporter), i, now) && events[i].at + lease <= now
  }

  ghost predicate Latest(events: seq<Event>, key: (NodeId, NodeId), i: nat, last: Instant) {
    && (exists j :: i <= j < |events| && Hit(events[j], key) && events[j].at == last)
    && forall j :: i <= j < |events| && Hit(events[j], key) ==> events[j].at <= last
  }

  /** The report is the stretch of failing reports that began at i. */
  ghost predicate IsStretch(events: seq<Event>, key: (NodeId, NodeId), i: nat, r: Report) {
    FailingSince(events, key, i, r.last) && events[i].at == r.first && Latest(events, key, i, r.last)
  }

  lemma MissKeepsStretch(events: seq<Event>, key: (NodeId, NodeId), i: nat, r: Report)
    requires |events| > 0 && IsStretch(events[..|events| - 1], key, i, r)
    requires !Hit(events[|events| - 1], key) && !Break(events[|events| - 1], key)
    ensures IsStretch(events, key, i, r)
  {
    var init := events[..|events| - 1];
    StretchGrows(events, key, i, r.last);
    var j :| i <= j < |init| && Hit(init[j], key) && init[j].at == r.last;
    assert Hit(events[j], key) && events[j].at == r.last;
  }

  lemma HitExtendsStretch(events: seq<Event>, key: (NodeId, NodeId), i: nat, r: Report)
    requires |events| > 0 && Ordered(events) && IsStretch(events[..|events| - 1], key, i, r)
    requires Hit(events[|events| - 1], key) && events[|events| - 1].at <= r.last + REPORT_FRESHNESS
    ensures IsStretch(events, key, i, Report(r.first, events[|events| - 1].at))
  {
    var at := events[|events| - 1].at;
    ReachesNow(events[..|events| - 1], key, i, r.last, at);
    StretchGrows(events, key, i, at);
  }

  /** A stored report is the stretch of failing reports that ends with its last. */
  lemma {:induction false} ReportIsStretch(events: seq<Event>, key: (NodeId, NodeId)) returns (i: nat)
    requires Ordered(events) && key in AllNoted(events)
    ensures IsStretch(events, key, i, AllNoted(events)[key])
  {
    var n := |events| - 1;
    var before := AllNoted(events[..n]);
    if !Hit(events[n], key) {
      i := ReportIsStretch(events[..n], key);
      MissKeepsStretch(events, key, i, before[key]);
    } else if key in before && before[key].last + REPORT_FRESHNESS >= events[n].at {
      i := ReportIsStretch(events[..n], key);
      HitExtendsStretch(events, key, i, before[key]);
    } else {
      i := n;
    }
  }

  lemma StretchGrows(events: seq<Event>, key: (NodeId, NodeId), i: nat, now: Instant)
    requires |events| > 0 && FailingSince(events[..|events| - 1], key, i, now) && !Break(events[|events| - 1], key)
    ensures FailingSince(events, key, i, now)
  {
    var init := events[..|events| - 1];
    forall x: Instant | events[i].at <= x < now ensures FreshAt(events, key, i, x) {
      assert FreshAt(init, key, i, x);
      var j :| i <= j < |init| && Hit(init[j], key) && init[j].at <= x < init[j].at + REPORT_FRESHNESS;
      assert Hit(events[j], key);
    }
  }

  /** And the other way: a stretch that reaches `now` is in the reports, begun no later. */
  lemma {:induction false} StretchIsNoted(events: seq<Event>, key: (NodeId, NodeId), i: nat, n: nat, now: Instant)
    requires Ordered(events) && FailingSince(events, key, i, now) && i < n <= |events|
    requires forall e :: e in events ==> e.at <= now
    ensures key in AllNoted(events[..n]) && AllNoted(events[..n])[key].first <= events[i].at
    ensures Latest(events[..n], key, i, AllNoted(events[..n])[key].last)
  {
    var e := events[n - 1];
    var init := events[..n - 1];
    assert events[..n] == init + [e] && e in events;
    if n - 1 > i {
      StretchIsNoted(events, key, i, n - 1, now);
      var last := AllNoted(init)[key].last;
      NoLongGap(events, key, i, n, last, now);
      NotedGrows(init, e, key);
      LatestGrows(events, key, i, n, last);
    } else {
      NotedBegins(init, e, key);
      assert Hit(events[..n][i], key);
    }
  }

  lemma {:induction false} NotedBegins(init: seq<Event>, e: Event, key: (NodeId, NodeId))
    requires Hit(e, key)
    ensures var after := AllNoted(init + [e]); key in after && after[key].last == e.at
    ensures (forall x :: x in init ==> x.at <= e.at) ==> AllNoted(init + [e])[key].first <= e.at
  {
    assert (init + [e])[..|init|] == init;
    if key in AllNoted(init) && forall x :: x in init ==> x.at <= e.at {
      NotedIsPast(init, key, e.at);
    }
  }

  lemma {:induction false} NotedIsPast(events: seq<Event>, key: (NodeId, NodeId), now: Instant)
    requires key in AllNoted(events) && forall x :: x in events ==> x.at <= now
    ensures AllNoted(events)[key].first <= now
  {
    var init, e := events[..|events| - 1], events[|events| - 1];
    assert e in events;
    if key in AllNoted(init) { NotedIsPast(init, key, now); }
  }

  lemma {:induction false} NotedGrows(init: seq<Event>, e: Event, key: (NodeId, NodeId))
    requires key in AllNoted(init) && !Break(e, key)
    requires e.at <= AllNoted(init)[key].last + REPORT_FRESHNESS || !Hit(e, key)
    ensures var before, after := AllNoted(init), AllNoted(init + [e]);
            && key in after && after[key].first == before[key].first
            && after[key].last == if Hit(e, key) then e.at else before[key].last
  {
    assert (init + [e])[..|init|] == init;
  }

  /** No report of the stretch came late. */
  lemma NoLongGap(events: seq<Event>, key: (NodeId, NodeId), i: nat, n: nat, last: Instant, now: Instant)
    requires Ordered(events) && FailingSince(events, key, i, now) && i < n <= |events| && events[n - 1].at <= now
    requires Latest(events[..n - 1], key, i, last)
    ensures last <= events[n - 1].at <= last + REPORT_FRESHNESS
  {
    var init := events[..n - 1];
    var j :| i <= j < n - 1 && Hit(init[j], key) && init[j].at == last;
    assert events[j].at == last;
    if events[n - 1].at > last + REPORT_FRESHNESS {
      var x := last + REPORT_FRESHNESS;
      assert FreshAt(events, key, i, x);
      var m :| i <= m < |events| && Hit(events[m], key) && events[m].at <= x < events[m].at + REPORT_FRESHNESS;
    }
  }

  lemma LatestGrows(events: seq<Event>, key: (NodeId, NodeId), i: nat, n: nat, last: Instant)
    requires Ordered(events) && i < n <= |events| && Latest(events[..n - 1], key, i, last)
    ensures Latest(events[..n], key, i, if Hit(events[n - 1], key) then events[n - 1].at else last)
  {
    var init := events[..n - 1];
    var j :| i <= j < n - 1 && Hit(init[j], key) && init[j].at == last;
    assert Hit(events[..n][j], key) && events[..n][j].at == last && events[j].at == last;
    assert forall m :: i <= m < n - 1 ==> init[m] == events[..n][m];
  }

  /** Behind the last report and its freshness the reports are stale. */
  lemma StaleAfter(events: seq<Event>, key: (NodeId, NodeId), i: nat, last: Instant)
    requires Latest(events, key, i, last)
    ensures !FreshAt(events, key, i, last + REPORT_FRESHNESS)
  {
  }

  /** A report tells exactly if the peer kept failing for the lease duration. */
  lemma {:induction false} TellingMeansKeptFailing(events: seq<Event>, peer: NodeId, reporter: NodeId, lease: nat,
                                                   now: Instant)
    requires Ordered(events) && forall e :: e in events ==> e.at <= now
    ensures (peer, reporter) in AllNoted(events) && Telling(AllNoted(events)[(peer, reporter)], lease, now)
       <==> KeptFailing(events, peer, reporter, lease, now)
  {
    var key := (peer, reporter);
    if key in AllNoted(events) && Telling(AllNoted(events)[key], lease, now) {
      var i := ReportIsStretch(events, key);
      ReachesNow(events, key, i, AllNoted(events)[key].last, now);
    }
    if i: nat :| FailingSince(events, key, i, now) && events[i].at + lease <= now {
      StretchIsNoted(events, key, i, |events|, now);
      assert events[..|events|] == events;
      var last := AllNoted(events)[key].last;
      assert events[i].at <= last;
      StaleAfter(events, key, i, last);
    }
  }

  lemma ReachesNow(events: seq<Event>, key: (NodeId, NodeId), i: nat, last: Instant, now: Instant)
    requires FailingSince(events, key, i, last) && Latest(events, key, i, last) && now <= last + REPORT_FRESHNESS
    ensures FailingSince(events, key, i, now)
  {
    var j :| i <= j < |events| && Hit(events[j], key) && events[j].at == last;
    forall x: Instant | events[i].at <= x < now ensures FreshAt(events, key, i, x) {
      if x >= last {
        assert events[j].at <= x < events[j].at + REPORT_FRESHNESS;
      }
    }
  }

  /** A failure is confirmed exactly if the node holds no lease, or two other leased nodes kept failing to reach it for a
      whole lease duration, up to now, without one success in between. */
  lemma {:induction false} ConfirmedMeansTwoWitnesses(st: ClusterState, grants: map<NodeId, Grant>, events: seq<Event>,
                                                      target: NodeId, now: Instant)
    requires Ordered(events) && forall e :: e in events ==> e.at <= now
    ensures FailureConfirmed(st, grants, AllNoted(events), target, now)
       <==> || !HasLease(st, grants, target, now)
            || exists a, b :: && a != b && IsWitness(st, grants, events, target, now, a)
                              && IsWitness(st, grants, events, target, now, b)
  {
    var w := Witnesses(st, grants, AllNoted(events), target, now);
    forall a: NodeId ensures a in w <==> IsWitness(st, grants, events, target, now, a) {
      TellingMeansKeptFailing(events, target, a, LeaseNanos(st), now);
      assert a in w <==> (target, a) in AllNoted(events) && a != target && HasLease(st, grants, a, now)
                         && Telling(AllNoted(events)[(target, a)], LeaseNanos(st), now);
    }
    TwoElements(w);
  }

  ghost predicate IsWitness(st: ClusterState, grants: map<NodeId, Grant>, events: seq<Event>, target: NodeId, now: Instant,
                            reporter: NodeId)
  {
    && reporter != target && HasLease(st, grants, reporter, now)
    && KeptFailing(events, target, reporter, LeaseNanos(st), now)
  }

  // ----- The pass -----

  /** Every lease granted before the coordinator started has run out. */
  predicate PastStartup(startupAt: Instant, lease: nat, now: Instant) {
    startupAt + lease <= now
  }

  predicate Removable(st: ClusterState, grants: map<NodeId, Grant>, reports: Reports, now: Instant, node: NodeId) {
    node in st.instances && node !in st.fenced && FailureConfirmed(st, grants, reports, node, now)
  }

  /** The first member, in id order, that is known to have failed. */
  function FirstFailed(st: ClusterState, grants: map<NodeId, Grant>, reports: Reports, now: Instant, members: seq<Member>)
    : (r: Option<NodeId>)
    ensures r.Some? ==> r.value in Ids(members) && Removable(st, grants, reports, now, r.value)
    ensures r.None? ==> forall m :: m in members ==> !Removable(st, grants, reports, now, m.id)
  {
    if members == [] then None
    else if Removable(st, grants, reports, now, members[0].id) then Some(members[0].id)
    else FirstFailed(st, grants, reports, now, members[1..])
  }
}
