/**
 What a database that lacks objects can answer. Whatever it lacks reads as lost, and a loss can only
 make a read fail: a read that succeeds is the read any database would have answered.
 */
module GitPartial {
  import opened Documents
  import opened GitObjects
  import opened GitRead
  import opened GitTree
  import opened Ordering
  import opened Wrappers

  // ---- One tree as a database shows it, and as a database with more does

  /** The same node, but for what is lost in the first. */
  predicate NodeUnder(less: Node, more: Node)
    decreases less
  {
    match less
    case LostFile => more.LostFile? || more.File?
    case LostDir => more.LostDir? || more.Dir?
    case Dir(entries) => more.Dir? && AllUnder(entries, more.entries)
    case _ => less == more
  }

  predicate AllUnder(less: seq<Entry>, more: seq<Entry>)
    decreases less
  {
    if less == [] || more == [] then less == more
    else less[0].name == more[0].name && UnderEntry(less[0], more[0]) && AllUnder(less[1..], more[1..])
  }

  predicate UnderEntry(less: Entry, more: Entry)
    decreases less
  {
    NodeUnder(less.node, more.node)
  }

  lemma {:induction false} ShowsUnder(u: Universe, has: Has, id: Id, items: seq<Item>)
    requires forall i :: 0 <= i < |items| && !items[i].kind.CommitItem? ==> items[i].id < id
    ensures AllUnder(Entries(u, has, id, items), Entries(u, EVERYTHING, id, items))
    decreases id, 0, |items|
  {
    if items != [] {
      if items[0].kind.TreeItem? { PeelsUnder(u, has, items[0].id); }
      ShowsUnder(u, has, id, items[1..]);
      var less, more := Entries(u, has, id, items), Entries(u, EVERYTHING, id, items);
      assert less[1..] == Entries(u, has, id, items[1..]) && more[1..] == Entries(u, EVERYTHING, id, items[1..]);
    }
  }

  lemma {:induction false} PeelsUnder(u: Universe, has: Has, id: Id)
    ensures Peeled(u, has, id).Some? ==>
              Peeled(u, EVERYTHING, id).Some? && AllUnder(Peeled(u, has, id).value, Peeled(u, EVERYTHING, id).value)
    decreases id, 1, 0
  {
    match u(id).parts {
      case Commit(tree) => PeelsUnder(u, has, tree);
      case Tag(target) => PeelsUnder(u, has, target);
      case Tree(items) => ShowsUnder(u, has, id, items);
      case Blob =>
    }
  }

  // ---- Looking a path up

  lemma {:induction false} FindsUnder(less: seq<Entry>, more: seq<Entry>, name: string)
    requires AllUnder(less, more)
    ensures Find(less, name).Some? <==> Find(more, name).Some?
    ensures Find(less, name).Some? ==> NodeUnder(Find(less, name).value, Find(more, name).value)
  {
    if less != [] && more != [] { FindsUnder(less[1..], more[1..], name); }
  }

  lemma {:induction false} LooksUpUnder(less: seq<Entry>, more: seq<Entry>, components: seq<string>)
    requires AllUnder(less, more) && Lookup(less, components).Ok?
    ensures Lookup(more, components).Ok? && NodeUnder(Lookup(less, components).value, Lookup(more, components).value)
    decreases |components|
  {
    FindsUnder(less, more, components[0]);
    if |components| > 1 {
      LooksUpUnder(Find(less, components[0]).value.entries, Find(more, components[0]).value.entries, components[1..]);
    }
  }

  lemma BlobIsTheSame(less: seq<Entry>, more: seq<Entry>, path: string)
    requires AllUnder(less, more) && BlobAt(less, path).Some?
    ensures BlobAt(more, path) == BlobAt(less, path)
  {
    LooksUpUnder(less, more, Split(path));
  }

  // ---- Walking a directory

  /** A walk that meets nothing unreadable meets the same things where more is held. */
  lemma {:induction false} WalksTheSame(at: string, less: seq<Entry>, more: seq<Entry>)
    requires AllUnder(less, more) && Sound(at, less)
    ensures Sound(at, more) && Leaves(at, more) == Leaves(at, less) && Dirs(more) == Dirs(less)
    decreases less
  {
    if less != [] {
      EntryIsTheSame(at, less[0], more[0]);
      WalksTheSame(at, less[1..], more[1..]);
    }
  }

  lemma {:induction false} EntryIsTheSame(at: string, less: Entry, more: Entry)
    requires less.name == more.name && UnderEntry(less, more) && SoundEntry(at, less)
    ensures SoundEntry(at, more) && LeavesOf(at, more) == LeavesOf(at, less) && DirsOf(more) == DirsOf(less)
    decreases less
  {
    if less.node.Dir? { WalksTheSame(PathOf(at, less), less.node.entries, more.node.entries); }
  }

  lemma StartIsTheSame(less: seq<Entry>, more: seq<Entry>, root: string)
    requires AllUnder(less, more) && StartOf(less, root).Some?
    ensures StartOf(more, root).Some? && AllUnder(StartOf(less, root).value, StartOf(more, root).value)
  {
    if root != "" { LooksUpUnder(less, more, Split(root)); }
  }

  lemma PathsAreTheSame(less: seq<Entry>, more: seq<Entry>, keys: Keys)
    requires AllUnder(less, more) && PathsOf(less, keys).Some?
    ensures PathsOf(more, keys) == PathsOf(less, keys)
  {
    if keys.Prefix? {
      var root := Trimmed(keys.directory);
      StartIsTheSame(less, more, root);
      WalksTheSame(root, StartOf(less, root).value, StartOf(more, root).value);
    }
  }

  // ---- Reading the documents

  lemma ReadableToo(less: seq<Entry>, more: seq<Entry>, paths: seq<string>)
    requires AllUnder(less, more) && AllReadable(less, paths)
    ensures AllReadable(more, paths)
    ensures forall i :: 0 <= i < |paths| ==> SizeAt(more, paths[i]) == SizeAt(less, paths[i])
  {
    forall i | 0 <= i < |paths| ensures BlobAt(more, paths[i]) == BlobAt(less, paths[i]) {
      BlobIsTheSame(less, more, paths[i]);
    }
  }

  lemma {:induction false} CostIsTheSame(less: seq<Entry>, more: seq<Entry>, paths: seq<string>)
    requires forall i :: 0 <= i < |paths| ==> SizeAt(more, paths[i]) == SizeAt(less, paths[i])
    ensures Cost(more, paths) == Cost(less, paths)
  {
    if paths != [] { CostIsTheSame(less, more, paths[..|paths| - 1]); }
  }

  /**
   A database can only fail to answer for a commit: whatever it lacks, and however it came to lack
   it, the documents it answers with are the commit's own.
   */
  lemma AnswersOnlyFresh(u: Universe, has: Has, asked: Asked, commit: Id, documents: seq<Pair>)
    requires HoldsIn(u, has, asked, commit, documents)
    ensures Holds(u, asked, commit, documents)
  {
    PeelsUnder(u, has, commit);
    var less, more := Peeled(u, has, commit).value, Peeled(u, EVERYTHING, commit).value;
    PathsAreTheSame(less, more, asked.keys);
    var paths := PathsOf(less, asked.keys).value;
    ReadableToo(less, more, paths);
    CostIsTheSame(less, more, paths);
    forall i | 0 <= i < |paths| ensures BlobAt(more, paths[i]) == BlobAt(less, paths[i]) {
      BlobIsTheSame(less, more, paths[i]);
    }
  }
}
