/**
 Where a document comes from: the objects a path goes through, from a commit down to one blob. What
 a read makes of a commit, entry by entry, is here compared with following the objects themselves.
 */
module GitBlobs {
  import opened Documents
  import opened GitObjects
  import opened GitRead
  import opened GitTree
  import opened Wrappers

  /** The items of the tree an object comes down to, through commits and tags. */
  function Items(u: Universe, id: Id): (r: Option<seq<Item>>)
    decreases id
  {
    match u(id).parts
    case Commit(tree) => Items(u, tree)
    case Tag(target) => Items(u, target)
    case Tree(items) => Some(items)
    case Blob => None
  }

  /** The first item of a tree with the name; the others cannot be asked for. */
  ghost predicate IsFirst(items: seq<Item>, name: string, i: nat) {
    i < |items| && items[i].name == Utf8(name) && forall j :: 0 <= j < i ==> items[j].name != Utf8(name)
  }

  /** The item a path ends at, one name to a tree: every item before the last is read as a tree. */
  ghost predicate LeadsTo(u: Universe, id: Id, names: seq<string>, item: Item)
    decreases |names|
  {
    && names != [] && Items(u, id).Some?
    && var items := Items(u, id).value;
       exists i: nat :: IsFirst(items, names[0], i) && StepLeadsTo(u, items[i], names, item)
  }

  ghost predicate StepLeadsTo(u: Universe, at: Item, names: seq<string>, item: Item)
    requires names != []
    decreases |names|, 0
  {
    if |names| == 1 then at == item
    else at.kind.TreeItem? && LeadsTo(u, at.id, names[1..], item)
  }

  /** The path ends at a file, and the object its item names is that many bytes, and this text. */
  ghost predicate LeadsToText(u: Universe, id: Id, path: string, size: nat, text: string) {
    exists item ::
      LeadsTo(u, id, Split(path), item)
      && item.kind.BlobItem? && u(item.id).size == size && u(item.id).text == Some(text)
  }

  // ---- The tree a database shows, item by item

  predicate Descends(id: Id, items: seq<Item>) {
    forall i :: 0 <= i < |items| && !items[i].kind.CommitItem? ==> items[i].id < id
  }

  lemma {:induction false} EntriesAt(u: Universe, id: Id, items: seq<Item>)
    requires Descends(id, items)
    ensures |Entries(u, EVERYTHING, id, items)| == |items|
    ensures forall i :: 0 <= i < |items| ==>
              Entries(u, EVERYTHING, id, items)[i] == Entry(items[i].name, NodeOf(u, EVERYTHING, id, items[i]))
  {
    if items != [] {
      EntriesAt(u, id, items[1..]);
      var entries := Entries(u, EVERYTHING, id, items);
      assert forall i :: 0 < i < |items| ==> items[i] == items[1..][i - 1] && entries[i] == entries[1..][i - 1];
    }
  }

  /** What an entry is read as, from its mode and the object it names. */
  ghost predicate Shows(u: Universe, item: Item, node: Node) {
    match item.kind
    case LinkItem => node == Link
    case CommitItem => node == Submodule
    case BlobItem =>
      var text := u(item.id).text;
      node == File(u(item.id).size, if text.Some? then Text(text.value) else NotText)
    case TreeItem =>
      var below := Peeled(u, EVERYTHING, item.id);
      node == if below.Some? then Dir(below.value) else LostDir
  }

  /**
   A database that has everything shows a commit as the tree it comes down to: an entry for every
   item, in order, under its own name, read as its mode says.
   */
  lemma {:induction false} ShowsTheTree(u: Universe, id: Id)
    ensures Peeled(u, EVERYTHING, id).Some? <==> Items(u, id).Some?
    ensures Items(u, id).Some? ==>
              var tree, items := Peeled(u, EVERYTHING, id).value, Items(u, id).value;
              && |tree| == |items|
              && forall i :: 0 <= i < |items| ==> tree[i].name == items[i].name && Shows(u, items[i], tree[i].node)
    decreases id
  {
    match u(id).parts {
      case Commit(tree) => ShowsTheTree(u, tree);
      case Tag(target) => ShowsTheTree(u, target);
      case Tree(items) => EntriesAt(u, id, items);
      case Blob =>
    }
  }

  // ---- A path

  lemma FirstIsOne(items: seq<Item>, name: string, i: nat, k: nat)
    requires IsFirst(items, name, i) && IsFirst(items, name, k)
    ensures i == k
  {
  }

  /** Looking a name up finds the first item of that name. */
  lemma FindsFirst(u: Universe, id: Id, name: string)
    requires Items(u, id).Some? && Peeled(u, EVERYTHING, id).Some?
    ensures var items, found := Items(u, id).value, Find(Peeled(u, EVERYTHING, id).value, name);
            && (found.Some? <==> exists i: nat :: IsFirst(items, name, i))
            && forall i: nat :: IsFirst(items, name, i) ==> found.Some? && Shows(u, items[i], found.value)
  {
    var items, tree := Items(u, id).value, Peeled(u, EVERYTHING, id).value;
    ShowsTheTree(u, id);
    var found := Find(tree, name);
    if found.Some? {
      var i :| 0 <= i < |tree| && tree[i] == Entry(Utf8(name), found.value)
               && forall j :: 0 <= j < i ==> tree[j].name != Utf8(name);
      assert IsFirst(items, name, i);
      forall k: nat | IsFirst(items, name, k) ensures k == i {
        FirstIsOne(items, name, i, k);
      }
    } else {
      forall i: nat ensures !IsFirst(items, name, i) {
        if i < |items| { assert tree[i].name == items[i].name; }
      }
    }
  }

  /** A path that looks up leads to an item that is read as what was found, and one that does not leads to no file. */
  lemma {:induction false} LooksUpItsItem(u: Universe, id: Id, names: seq<string>)
    requires Items(u, id).Some? && Peeled(u, EVERYTHING, id).Some?
    ensures var found := Lookup(Peeled(u, EVERYTHING, id).value, names);
            forall item :: LeadsTo(u, id, names, item) ==> found.Ok? && Shows(u, item, found.value)
    ensures Lookup(Peeled(u, EVERYTHING, id).value, names).Ok? ==> exists item :: LeadsTo(u, id, names, item)
    decreases |names|
  {
    if names != [] {
      var items := Items(u, id).value;
      var found := Find(Peeled(u, EVERYTHING, id).value, names[0]);
      FindsFirst(u, id, names[0]);
      if found.Some? {
        var i: nat :| IsFirst(items, names[0], i);
        forall k: nat | IsFirst(items, names[0], k) ensures k == i {
          FirstIsOne(items, names[0], i, k);
        }
        StepLooksUp(u, id, names, items[i], found.value);
        if Lookup(Peeled(u, EVERYTHING, id).value, names).Ok? {
          var item :| StepLeadsTo(u, items[i], names, item);
          assert LeadsTo(u, id, names, item);
        }
      }
    }
  }

  /** The same once the first name has been found. */
  lemma {:induction false} StepLooksUp(u: Universe, id: Id, names: seq<string>, at: Item, node: Node)
    requires names != [] && Peeled(u, EVERYTHING, id).Some?
    requires Find(Peeled(u, EVERYTHING, id).value, names[0]) == Some(node) && Shows(u, at, node)
    ensures var found := Lookup(Peeled(u, EVERYTHING, id).value, names);
            && (forall item :: StepLeadsTo(u, at, names, item) ==> found.Ok? && Shows(u, item, found.value))
            && (found.Ok? ==> exists item :: StepLeadsTo(u, at, names, item))
    decreases |names|, 0
  {
    if |names| == 1 {
      assert StepLeadsTo(u, at, names, at);
    } else if at.kind.TreeItem? {
      ShowsTheTree(u, at.id);
      if node.Dir? {
        LooksUpItsItem(u, at.id, names[1..]);
        if Lookup(node.entries, names[1..]).Ok? {
          var item :| LeadsTo(u, at.id, names[1..], item);
          assert StepLeadsTo(u, at, names, item);
        }
      }
    }
  }

  lemma PathIsItsBlob(u: Universe, id: Id, path: string, size: nat, text: string)
    requires Items(u, id).Some? && Peeled(u, EVERYTHING, id).Some?
    ensures BlobAt(Peeled(u, EVERYTHING, id).value, path) == Some(TextFile(size, text)) <==>
            LeadsToText(u, id, path, size, text)
  {
    LooksUpItsItem(u, id, Split(path));
    var found := Lookup(Peeled(u, EVERYTHING, id).value, Split(path));
    if found == Ok(File(size, Text(text))) {
      var item :| LeadsTo(u, id, Split(path), item);
      assert Shows(u, item, found.value);
    }
  }

  ghost predicate IsBlob(u: Universe, asked: Asked, commit: Id, document: Pair) {
    exists size: nat :: size <= asked.maxBytes && LeadsToText(u, commit, document.key, size, document.text)
  }

  /**
   Every document of a commit is a blob of that commit: the path, name by name from the commit's own
   tree, leads to a file, and the document is that object's text, under the path as it was asked for.
   What was asked for by name comes back in that order, none left out.
   */
  lemma DocumentsAreBlobs(u: Universe, asked: Asked, commit: Id, documents: seq<Pair>)
    requires Holds(u, asked, commit, documents)
    ensures documents != []
    ensures forall i :: 0 <= i < |documents| ==>
              IsBlob(u, asked, commit, documents[i])
    ensures match asked.keys
            case One(path) => |documents| == 1 && documents[0].key == path
            case Several(paths) =>
              |documents| == |paths| && forall i :: 0 <= i < |paths| ==> documents[i].key == paths[i]
            case Prefix(_) => true
  {
    var tree := Peeled(u, EVERYTHING, commit).value;
    var paths := PathsOf(tree, asked.keys).value;
    ShowsTheTree(u, commit);
    forall i | 0 <= i < |documents|
      ensures IsBlob(u, asked, commit, documents[i])
    {
      var blob := BlobAt(tree, paths[i]).value;
      PathIsItsBlob(u, commit, paths[i], blob.size, blob.text);
      CostGrows(tree, paths, i + 1);
      assert paths[..i + 1][i] == paths[i];
    }
  }
}
