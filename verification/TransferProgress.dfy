/** A transfer can always be finished: whatever was lost, repeated or cut short, four more steps bring both sides together. */
module TransferProgress {
  import opened Topology
  import opened Records
  import opened Transfer

  /** A destination that takes every record of the range. */
  function Everything(): Accepts {
    w => true
  }

  /** Storable records are never refused. */
  lemma {:induction false} SnapshotIsTaken(d: Staged, items: seq<Item>)
    requires forall x :: x in items ==> Storable(x.record)
    ensures TakeSnapshot(d, Wires(items), Everything()).1
    ensures TakeSnapshot(d, Wires(items), Everything()).0.watermark == d.watermark
  {
    if items != [] {
      var init, last := items[..|items| - 1], items[|items| - 1];
      assert last in items && forall x :: x in init ==> x in items;
      SnapshotIsTaken(d, init);
      assert Wires(items)[..|items| - 1] == Wires(init) && Wires(items)[|items| - 1] == ToWire(last);
      WireRoundTrip(last);
    }
  }

  /** A journal that starts no later than the watermark is taken to its end. */
  lemma {:induction false} JournalIsTaken(d: Staged, journal: seq<Item>, j: nat)
    requires j <= |journal| && forall x :: x in journal ==> Storable(x.record)
    ensures TakeJournal(d, Entries(journal, 0, j), Everything()).1
    ensures TakeJournal(d, Entries(journal, 0, j), Everything()).0.watermark == Max(d.watermark, j)
  {
    if j > 0 {
      JournalIsTaken(d, journal, j - 1);
      var entries := Entries(journal, 0, j);
      assert entries[..j - 1] == Entries(journal, 0, j - 1) && entries[j - 1] == Entry(j, ToWire(journal[j - 1]));
      assert journal[j - 1] in journal;
      WireRoundTrip(journal[j - 1]);
    }
  }

  /** A key held when the range was prepared is still held. */
  lemma StillHeld(s: Source, i: nat)
    requires SourceSound(s) && i < |s.keys|
    ensures s.keys[i] in s.records
  {
    assert Offered(s.base, s.journal, Item(s.keys[i], s.base[s.keys[i]]));
    MergeKeepsHighest(s.base, s.journal);
  }

  lemma AllListed(s: Source, start: nat)
    requires SourceSound(s) && start <= |s.keys|
    ensures Listed(s, start, |s.keys|)
  {
    forall i | start <= i < |s.keys| ensures s.keys[i] in s.records {
      StillHeld(s, i);
    }
  }

  /** One more step of a run. */
  lemma Extend(run: seq<World>, e: Event) returns (longer: seq<World>)
    requires IsRun(run) && Enabled(run[|run| - 1], e)
    ensures longer == run + [Next(run[|run| - 1], e)] && IsRun(longer)
  {
    longer := run + [Next(run[|run| - 1], e)];
    forall i | 0 <= i && i + 1 < |longer| ensures StepAt(longer, i) {
      if i + 1 < |run| {
        assert StepAt(run, i);
        var x :| Enabled(run[i], x) && run[i + 1] == Next(run[i], x);
        assert Enabled(longer[i], x) && longer[i + 1] == Next(longer[i], x);
      } else {
        assert Enabled(longer[i], e) && longer[i + 1] == Next(longer[i], e);
      }
    }
  }

  /** The page that holds the rest of the snapshot. */
  function Rest(w: World): Event
  {
    ReadPage(w.cursor, |w.source.keys|)
  }

  /** Once it is read, delivering it ends the snapshot. */
  lemma RestEndsSnapshot(w: World)
    requires Inv(w) && Enabled(w, Rest(w)) && w.cursor < |w.source.keys|
    ensures var e := DeliverPage(PageOf(w.source, w.cursor, |w.source.keys|), Everything());
      var v := Next(w, Rest(w));
      Enabled(v, e) && Next(v, e).cursor == |w.source.keys| && Next(v, e).source == w.source
  {
    var page := PageOf(w.source, w.cursor, |w.source.keys|);
    PageOfIsSound(w.source, w.cursor, |w.source.keys|);
    assert forall x :: x in page.items ==> Offered(w.source.base, w.source.journal, x);
    SnapshotIsTaken(w.staged, page.items);
  }

  /** The rest of the snapshot is read and delivered in one page. */
  lemma CopyRest(run: seq<World>) returns (longer: seq<World>)
    requires IsRun(run)
    ensures IsRun(longer) && |run| <= |longer| <= |run| + 2 && run == longer[..|run|]
    ensures var w := longer[|longer| - 1]; w.cursor == |w.source.keys| && w.source == run[|run| - 1].source
  {
    var w := run[|run| - 1];
    RunKeepsInv(run, |run| - 1);
    longer := run;
    if w.cursor < |w.source.keys| {
      AllListed(w.source, w.cursor);
      RestEndsSnapshot(w);
      longer := Extend(run, Rest(w));
      longer := Extend(longer, DeliverPage(PageOf(w.source, w.cursor, |w.source.keys|), Everything()));
    }
  }

  /** And the journal in one batch. */
  lemma JournalEndsTransfer(w: World)
    requires Inv(w)
    ensures var e := DeliverJournal(0, |w.source.journal|, Everything());
      Enabled(w, e) && Next(w, e).staged.watermark == |w.source.journal|
  {
    assert forall x :: x in w.source.journal ==> Offered(w.source.base, w.source.journal, x);
    JournalIsTaken(w.staged, w.source.journal, |w.source.journal|);
  }

  lemma PauseIsEnabled(w: World)
    ensures Enabled(w, Pause) && Next(w, Pause) == w.(source := w.source.(paused := true))
  {
  }

  /** Every run can be continued, by four more steps at the most, until the destination holds exactly the source's records
      behind a paused source. */
  lemma TransferCanFinish(run: seq<World>) returns (longer: seq<World>)
    requires IsRun(run)
    ensures IsRun(longer) && |run| < |longer| <= |run| + 4 && run == longer[..|run|]
    ensures var w := longer[|longer| - 1];
      CaughtUp(w) && w.source.paused && w.staged.records == w.source.records == run[|run| - 1].source.records
  {
    PauseIsEnabled(run[|run| - 1]);
    var paused := Extend(run, Pause);
    var copied := CopyRest(paused);
    var w := copied[|copied| - 1];
    RunKeepsInv(copied, |copied| - 1);
    JournalEndsTransfer(w);
    longer := Extend(copied, DeliverJournal(0, |w.source.journal|, Everything()));
    CaughtUpIsEqual(longer, |longer| - 1);
  }
}
