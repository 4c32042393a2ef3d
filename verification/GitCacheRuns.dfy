/**
 The git cache over whole runs: which directories can never come to hold a commit without its tree,
 what happens in the others, and what becomes of a directory that has lost a tree.
 */
module GitCacheRuns {
  import opened Documents
  import opened GitCache
  import opened GitObjects
  import opened Wrappers

  /** The database was closed after every fetch of the run. */
  ghost predicate AlwaysClosed(u: Universe, config: Config, start: Disk, fetches: seq<Fetch>) {
    && Closed(u, After(u, config, start, fetches).held)
    && (fetches != [] ==> AlwaysClosed(u, config, start, fetches[..|fetches| - 1]))
  }

  /** A directory compaction will never touch: it is turned off, or a repository is there unmarked. */
  predicate NeverCompacted(config: Config, start: Disk) {
    config.after == 0 || (start.opens && !start.marked)
  }

  /** One more fetch. */
  lemma AfterOne(u: Universe, config: Config, start: Disk, fetches: seq<Fetch>, last: Fetch)
    ensures After(u, config, start, fetches + [last]) ==
            Once(u, config, After(u, config, start, fetches), last.turn, last.want).disk
    ensures HonestRun(u, config, start, fetches + [last]) <==>
            HonestRun(u, config, start, fetches) && Honest(u, config, After(u, config, start, fetches), last.turn)
    ensures AlwaysClosed(u, config, start, fetches + [last]) <==>
            AlwaysClosed(u, config, start, fetches) && Closed(u, After(u, config, start, fetches + [last]).held)
  {
    assert (fetches + [last])[..|fetches|] == fetches;
  }

  /** Nothing that can fail breaks the cache of a directory that is never compacted. */
  lemma {:induction false} NeverCompactedStaysClosed(u: Universe, config: Config, start: Disk, fetches: seq<Fetch>)
    requires NeverCompacted(config, start)
    requires Closed(u, start.held) && HonestRun(u, config, start, fetches)
    ensures AlwaysClosed(u, config, start, fetches)
  {
    if fetches != [] {
      var before, last := fetches[..|fetches| - 1], fetches[|fetches| - 1];
      NeverCompactedStaysClosed(u, config, start, before);
      if config.after != 0 { UnmarkedOnlyGrows(u, config, start, before); }
      KeepsClosed(u, config, After(u, config, start, before), last.turn, last.want);
    }
  }

  // ---- Any other directory can be broken

  /** Blobs up to `m`, an empty tree above them, and above that nothing but commits of that tree. */
  function Above(m: Id): (r: Universe) {
    (id: Id) => Object(0, None, if id <= m then Blob else if id == m + 1 then Tree([]) else Commit(m + 1))
  }

  /** A fetch in which everything that is asked is answered, and `pack` is what a transfer brings. */
  function Transferring(commit: Id, pack: set<Id>): (r: Turn) {
    Turn(Obtained, true, Finished, true, true, true, Advertised(Some(commit)), Received(pack))
  }

  lemma {:induction false} HasBound(held: set<Id>) returns (m: Id)
    ensures forall id :: id in held ==> id <= m
    decreases held
  {
    m := 0;
    if held != {} {
      var id :| id in held;
      var rest := held - {id};
      var below := HasBound(rest);
      m := if below < id then id else below;
      assert forall other :: other in held ==> other == id || other in rest;
    }
  }

  /** A marked repository whose commits are all of the one tree, `top` the latest of them. */
  ghost predicate Warm(m: Id, disk: Disk, top: Id) {
    && disk.opens && disk.marked && Closed(Above(m), disk.held)
    && m + 2 <= top && top in disk.held && forall id :: id in disk.held ==> id <= top
  }

  lemma PackIsHonest(m: Id, held: set<Id>, commit: Id)
    requires m + 2 <= commit
    ensures HonestPack(Above(m), held, {m + 1, commit}, commit)
  {
    var has := Holding(held + {m + 1, commit});
    assert Complete(Above(m), has, m + 1);
    assert Complete(Above(m), has, commit);
  }

  /** A first transfer into a directory of this crate's own. */
  lemma Warms(m: Id, config: Config, start: Disk)
    requires (start.opens ==> start.marked) && forall id :: id in start.held ==> id <= m
    ensures var turn := Transferring(m + 2, {m + 1, m + 2});
            && Honest(Above(m), config, start, turn)
            && Warm(m, Once(Above(m), config, start, turn, true).disk, m + 2)
  {
    var turn := Transferring(m + 2, {m + 1, m + 2});
    var prepared := Prepared(config, start, turn).disk;
    PackIsHonest(m, prepared.held, m + 2);
    assert Closed(Above(m), prepared.held);
    PackKeepsClosed(Above(m), prepared.held, {m + 1, m + 2}, m + 2);
    assert Once(Above(m), config, start, turn, true).disk == WithPack(prepared, {m + 1, m + 2});
  }

  /** One more transfer, and one more pack. */
  lemma StaysWarm(m: Id, config: Config, disk: Disk, top: Id)
    requires Warm(m, disk, top) && !Compacts(config, disk)
    ensures var turn := Transferring(top + 1, {m + 1, top + 1});
            var after := Once(Above(m), config, disk, turn, true).disk;
            && Honest(Above(m), config, disk, turn)
            && Warm(m, after, top + 1) && after.packs == disk.packs + 1
  {
    var turn := Transferring(top + 1, {m + 1, top + 1});
    PackIsHonest(m, disk.held, top + 1);
    PackKeepsClosed(Above(m), disk.held, {m + 1, top + 1}, top + 1);
    assert Prepared(config, disk, turn) == Stage(disk, Ok(()));
    assert Once(Above(m), config, disk, turn, true).disk == WithPack(disk, {m + 1, top + 1});
  }

  /** Packs add up until compaction starts, and then it stops with a commit and no tree. */
  lemma {:induction false} Breaks(m: Id, config: Config, start: Disk, fetches: seq<Fetch>, top: Id)
    returns (longer: seq<Fetch>)
    requires config.after > 0 && HonestRun(Above(m), config, start, fetches)
    requires Warm(m, After(Above(m), config, start, fetches), top)
    ensures HonestRun(Above(m), config, start, longer)
    ensures !AlwaysClosed(Above(m), config, start, longer)
    decreases config.after + 1 - After(Above(m), config, start, fetches).packs
  {
    var u := Above(m);
    var disk := After(u, config, start, fetches);
    if Compacts(config, disk) {
      var last := Fetch(Stopping(Disk(true, disk.opens, {top}, disk.packs)), true);
      StoppingBreaks(u, config, disk, top, true);
      AfterOne(u, config, start, fetches, last);
      longer := fetches + [last];
    } else {
      var next := Fetch(Transferring(top + 1, {m + 1, top + 1}), true);
      StaysWarm(m, config, disk, top);
      AfterOne(u, config, start, fetches, next);
      longer := Breaks(m, config, start, fetches + [next], top + 1);
    }
  }

  lemma CanBreak(config: Config, start: Disk) returns (u: Universe, fetches: seq<Fetch>)
    requires !NeverCompacted(config, start)
    ensures Closed(u, start.held) && HonestRun(u, config, start, fetches) && !AlwaysClosed(u, config, start, fetches)
  {
    var m := HasBound(start.held);
    u := Above(m);
    var first := Fetch(Transferring(m + 2, {m + 1, m + 2}), true);
    Warms(m, config, start);
    AfterOne(u, config, start, [], first);
    assert [] + [first] == [first];
    assert forall id :: id in start.held ==> !IsRoot(u(id));
    fetches := Breaks(m, config, start, [first], m + 2);
  }

  /**
   Which directories are safe for good: over every run against every repository no commit is ever
   left without its tree, with nothing assumed of what removals leave behind, if and only if the
   directory is never compacted. Any other, in some repository, is broken by some run.
   */
  lemma RunStaysClosedIff(config: Config, start: Disk)
    ensures (forall u: Universe, fetches: seq<Fetch> ::
               Closed(u, start.held) && HonestRun(u, config, start, fetches) ==>
                 AlwaysClosed(u, config, start, fetches))
            <==> NeverCompacted(config, start)
  {
    if NeverCompacted(config, start) {
      forall u: Universe, fetches: seq<Fetch> | Closed(u, start.held) && HonestRun(u, config, start, fetches)
        ensures AlwaysClosed(u, config, start, fetches)
      {
        NeverCompactedStaysClosed(u, config, start, fetches);
      }
    } else {
      var u, fetches := CanBreak(config, start);
    }
  }

  // ---- A commit that lost its tree

  /** The host names this commit, none, or does not answer. */
  predicate StaysAt(commit: Id, fetches: seq<Fetch>) {
    forall i :: 0 <= i < |fetches| && fetches[i].turn.listing.Advertised? ==>
      fetches[i].turn.listing.commit == None || fetches[i].turn.listing.commit == Some(commit)
  }

  /**
   For as long as the ref stays at it and compaction is not due, a commit the cache claims and cannot
   show is never fetched again.
   */
  lemma {:induction false} HiddenStaysHidden(u: Universe, config: Config, disk: Disk, commit: Id, fetches: seq<Fetch>)
    requires disk.opens && !Compacts(config, disk) && commit in disk.held
    requires !CanRead(u, Holding(disk.held), config.asked, commit)
    requires StaysAt(commit, fetches)
    ensures After(u, config, disk, fetches) == disk
    ensures forall i :: 0 <= i < |fetches| && fetches[i].want ==>
              Once(u, config, disk, fetches[i].turn, true).result.Err?
  {
    if fetches != [] {
      var before, last := fetches[..|fetches| - 1], fetches[|fetches| - 1];
      HiddenStaysHidden(u, config, disk, commit, before);
      HiddenIsNotFetched(u, config, disk, commit, last.turn, last.want);
      assert forall i :: 0 <= i < |before| ==> before[i] == fetches[i];
    }
  }

  lemma HiddenIsNotFetched(u: Universe, config: Config, disk: Disk, commit: Id, turn: Turn, want: bool)
    requires disk.opens && !Compacts(config, disk) && commit in disk.held
    requires !CanRead(u, Holding(disk.held), config.asked, commit)
    requires turn.listing.Advertised? ==> turn.listing.commit == None || turn.listing.commit == Some(commit)
    ensures Once(u, config, disk, turn, want).disk == disk
    ensures want ==> Once(u, config, disk, turn, want).result.Err?
  {
    assert Prepared(config, disk, turn).disk == disk;
    var transferred := Transferred(config, disk, turn, want);
    assert transferred.disk == disk && (transferred.result.Ok? ==> transferred.result.value == commit);
  }

  /** Two commits (2 and 3) of one directory (1) of one file (0). */
  function Sample(id: Id): (r: Object) {
    Object(1, Some("x"),
           if id == 2 || id == 3 then Commit(1)
           else if id == 1 then Tree([Item(GitTree.Utf8("a"), BlobItem, 0)])
           else Blob)
  }

  const SAMPLE: Universe := Sample

  const SAMPLE_CONFIG := Config(1, Asked(GitRead.One("a"), 8))

  /** The first commit and all of it; the second, of which only the commit is new; a compaction that stops there. */
  const FIRST := Fetch(Transferring(2, {0, 1, 2}), true)
  const SECOND := Fetch(Transferring(3, {3}), true)
  const STOPPED := Fetch(Stopping(HIDDEN), true)

  /** What is left: the second commit's own pack. */
  const HIDDEN := Disk(true, true, {3}, 1)

  /** The cache after one transfer, and after two. */
  const ONE := Disk(true, true, {0, 1, 2}, 1)
  const TWO := Disk(true, true, {0, 1, 2, 3}, 2)

  lemma FirstTransfer()
    ensures Honest(SAMPLE, SAMPLE_CONFIG, EMPTY, FIRST.turn)
    ensures Once(SAMPLE, SAMPLE_CONFIG, EMPTY, FIRST.turn, true).disk == ONE
  {
    SampleIsComplete(ONE.held);
    assert {} + {0, 1, 2} == ONE.held;
  }

  lemma SecondTransfer()
    ensures Honest(SAMPLE, SAMPLE_CONFIG, ONE, SECOND.turn)
    ensures Once(SAMPLE, SAMPLE_CONFIG, ONE, SECOND.turn, true).disk == TWO
  {
    SampleIsComplete(TWO.held);
    assert ONE.held + {3} == TWO.held;
  }

  lemma ThirdStops()
    ensures Honest(SAMPLE, SAMPLE_CONFIG, TWO, STOPPED.turn)
    ensures Once(SAMPLE, SAMPLE_CONFIG, TWO, STOPPED.turn, true).disk == HIDDEN
  {
  }

  lemma SampleFills()
    ensures After(SAMPLE, SAMPLE_CONFIG, EMPTY, [FIRST, SECOND]) == TWO
    ensures HonestRun(SAMPLE, SAMPLE_CONFIG, EMPTY, [FIRST, SECOND])
    ensures AlwaysClosed(SAMPLE, SAMPLE_CONFIG, EMPTY, [FIRST, SECOND])
  {
    FirstTransfer();
    SecondTransfer();
    AfterOne(SAMPLE, SAMPLE_CONFIG, EMPTY, [], FIRST);
    AfterOne(SAMPLE, SAMPLE_CONFIG, EMPTY, [FIRST], SECOND);
    assert [] + [FIRST] == [FIRST] && [FIRST] + [SECOND] == [FIRST, SECOND];
    SampleIsComplete(ONE.held);
    SampleIsComplete(TWO.held);
  }

  lemma SampleIsComplete(held: set<Id>)
    requires {0, 1, 2} <= held <= {0, 1, 2, 3}
    ensures Closed(SAMPLE, held) && forall id :: id in held ==> Complete(SAMPLE, Holding(held), id)
  {
    assert Complete(SAMPLE, Holding(held), 0);
    assert Complete(SAMPLE, Holding(held), 1);
    assert Complete(SAMPLE, Holding(held), 2);
    assert 3 in held ==> Complete(SAMPLE, Holding(held), 3);
  }

  lemma HiddenReadsNothing()
    ensures !CanRead(SAMPLE, Holding(HIDDEN.held), SAMPLE_CONFIG.asked, 3)
  {
    var has := Holding({3});
    assert Peeled(SAMPLE, has, 1) == None && Peeled(SAMPLE, has, 3) == None;
  }

  lemma SampleReads()
    ensures Holds(SAMPLE, SAMPLE_CONFIG.asked, 3, [Pair("a", "x")])
  {
    var items := [Item(GitTree.Utf8("a"), BlobItem, 0)];
    assert SAMPLE(1).parts == Tree(items) && items[1..] == [];
    var tree := Entries(SAMPLE, EVERYTHING, 1, items);
    assert tree == [GitTree.Entry(GitTree.Utf8("a"), GitTree.File(1, GitTree.Text("x")))];
    assert Peeled(SAMPLE, EVERYTHING, 1) == Some(tree);
    assert Peeled(SAMPLE, EVERYTHING, 3) == Some(tree);
    GitRead.SplitName("a");
    assert GitRead.Find(tree, "a") == Some(GitTree.File(1, GitTree.Text("x")));
    assert GitRead.BlobAt(tree, "a") == Some(GitRead.TextFile(1, "x"));
    var paths := ["a"];
    assert paths[..0] == [];
    assert GitRead.Cost(tree, paths) == 1;
    assert GitRead.Readable(tree, SAMPLE_CONFIG.asked.keys, 8);
    assert GitRead.Answers(tree, paths, [Pair("a", "x")]);
  }

  /**
   What a broken cache does: from an empty directory, two commits of one tree are fetched and the
   compaction that follows stops at the second one's pack. The database then claims the commit; for
   as long as the ref stays there, every fetch skips the transfer and fails to read what a fresh
   transfer reads, and nothing in the directory changes.
   */
  lemma {:induction false} StoppedRemovalHidesACommit(later: seq<Fetch>)
    requires StaysAt(3, later)
    ensures HonestRun(SAMPLE, SAMPLE_CONFIG, EMPTY, [FIRST, SECOND, STOPPED])
    ensures AlwaysClosed(SAMPLE, SAMPLE_CONFIG, EMPTY, [FIRST, SECOND])
    ensures After(SAMPLE, SAMPLE_CONFIG, EMPTY, [FIRST, SECOND, STOPPED]) == HIDDEN && !Closed(SAMPLE, HIDDEN.held)
    ensures After(SAMPLE, SAMPLE_CONFIG, HIDDEN, later) == HIDDEN
    ensures forall i :: 0 <= i < |later| && later[i].want ==>
              Once(SAMPLE, SAMPLE_CONFIG, HIDDEN, later[i].turn, true).result.Err?
    ensures Holds(SAMPLE, SAMPLE_CONFIG.asked, 3, [Pair("a", "x")])
  {
    SampleFills();
    AfterOne(SAMPLE, SAMPLE_CONFIG, EMPTY, [FIRST, SECOND], STOPPED);
    assert [FIRST, SECOND] + [STOPPED] == [FIRST, SECOND, STOPPED];
    ThirdStops();
    CommitAloneIsNotClosed(SAMPLE, 3);
    HiddenReadsNothing();
    HiddenStaysHidden(SAMPLE, SAMPLE_CONFIG, HIDDEN, 3, later);
    SampleReads();
  }
}
