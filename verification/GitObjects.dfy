/**
 Git's object model, as far as a read depends on it: an object names its parts by id, an id says
 for good what the object is, and no object contains itself. What a database lacks reads as lost.
 */
module GitObjects {
  import opened Documents
  import opened GitRead
  import opened GitTree
  import opened Wrappers

  type Id = nat

  datatype Kind = BlobItem | TreeItem | LinkItem | CommitItem

  datatype Item = Item(name: Name, kind: Kind, id: Id)

  /** What an object is made of. */
  datatype Parts = Commit(tree: Id) | Tag(target: Id) | Tree(items: seq<Item>) | Blob

  /** An object: how many bytes, as text if they are UTF-8, and what they say it is made of. */
  datatype Object = Object(size: nat, text: Option<string>, parts: Parts)

  /** An id is numbered above the ids of an object's parts: a hash cannot contain itself. */
  ghost predicate Acyclic(objects: Id -> Object) {
    forall id: Id ::
      match objects(id).parts
      case Commit(tree) => tree < id
      case Tag(target) => target < id
      case Tree(items) => forall i :: 0 <= i < |items| && !items[i].kind.CommitItem? ==> items[i].id < id
      case Blob => true
  }

  type Universe = objects: Id -> Object | Acyclic(objects) witness (id: Id) => Object(0, None, Blob)

  /** Which objects a database has. */
  type Has = Id -> bool

  function Holding(held: set<Id>): (r: Has) {
    id => id in held
  }

  const EVERYTHING: Has := id => true

  // ---- What a database shows

  function ContentsOf(text: Option<string>): (r: Contents) {
    if text.Some? then Text(text.value) else NotText
  }

  function Entries(u: Universe, has: Has, id: Id, items: seq<Item>): (r: seq<Entry>)
    requires forall i :: 0 <= i < |items| && !items[i].kind.CommitItem? ==> items[i].id < id
    decreases id, 1, |items|
  {
    if items == [] then []
    else [Entry(items[0].name, NodeOf(u, has, id, items[0]))] + Entries(u, has, id, items[1..])
  }

  /**
   An entry's mode decides what it is read as, whatever kind of object its id turns out to name: a
   file is the bytes of any object, and a directory is any object that comes down to a tree.
   */
  function NodeOf(u: Universe, has: Has, parent: Id, item: Item): (r: Node)
    requires !item.kind.CommitItem? ==> item.id < parent
    decreases parent, 0, 0
  {
    match item.kind
    case LinkItem => Link
    case CommitItem => Submodule
    case BlobItem => if has(item.id) then File(u(item.id).size, ContentsOf(u(item.id).text)) else LostFile
    case TreeItem =>
      match Peeled(u, has, item.id)
      case Some(entries) => Dir(entries)
      case None => LostDir
  }

  /** `peel_to_tree`: the tree a commit, or a tag of one, comes down to. */
  function Peeled(u: Universe, has: Has, id: Id): (r: Option<seq<Entry>>)
    decreases id, 2, 0
  {
    if !has(id) then None
    else
      match u(id).parts
      case Commit(tree) => Peeled(u, has, tree)
      case Tag(target) => Peeled(u, has, target)
      case Tree(items) => Some(Entries(u, has, id, items))
      case Blob => None
  }

  // ---- A database that has all of an object

  /**
   The object and, all the way down, everything it is read from: the tree of a commit, what a tag
   names, every file and directory of a tree; where a link points and a submodule's commit are not
   part of it.
   */
  ghost predicate Complete(u: Universe, has: Has, id: Id)
    decreases id
  {
    && has(id)
    && match u(id).parts
       case Commit(tree) => Complete(u, has, tree)
       case Tag(target) => Complete(u, has, target)
       case Tree(items) => forall i :: 0 <= i < |items| ==> HasItem(u, has, id, items[i])
       case Blob => true
  }

  ghost predicate HasItem(u: Universe, has: Has, parent: Id, item: Item)
    requires !item.kind.CommitItem? ==> item.id < parent
    decreases parent, 0
  {
    match item.kind
    case BlobItem => has(item.id)
    case TreeItem => Complete(u, has, item.id)
    case LinkItem => true
    case CommitItem => true
  }

  /** What a transfer names and a short circuit asks about. */
  predicate IsRoot(object': Object) {
    object'.parts.Commit? || object'.parts.Tag?
  }

  /** Closed: no commit is held without its whole tree. */
  ghost predicate Closed(u: Universe, held: set<Id>) {
    forall id :: id in held && IsRoot(u(id)) ==> Complete(u, Holding(held), id)
  }

  lemma {:induction false} MoreKeepsComplete(u: Universe, less: set<Id>, more: set<Id>, id: Id)
    requires less <= more && Complete(u, Holding(less), id)
    ensures Complete(u, Holding(more), id)
    decreases id
  {
    match u(id).parts {
      case Commit(tree) => MoreKeepsComplete(u, less, more, tree);
      case Tag(target) => MoreKeepsComplete(u, less, more, target);
      case Tree(items) =>
        forall i | 0 <= i < |items|
          ensures HasItem(u, Holding(more), id, items[i])
        {
          assert HasItem(u, Holding(less), id, items[i]);
          if items[i].kind.TreeItem? { MoreKeepsComplete(u, less, more, items[i].id); }
        }
      case Blob =>
    }
  }

  /** A complete tree shows what it would in a database that has everything. */
  lemma {:induction false} CompleteShowsAll(u: Universe, has: Has, id: Id, items: seq<Item>)
    requires forall i :: 0 <= i < |items| ==>
               (!items[i].kind.CommitItem? ==> items[i].id < id) && HasItem(u, has, id, items[i])
    ensures Entries(u, has, id, items) == Entries(u, EVERYTHING, id, items)
    decreases id, 0, |items|
  {
    if items != [] {
      assert HasItem(u, has, id, items[0]);
      if items[0].kind.TreeItem? { CompletePeels(u, has, items[0].id); }
      CompleteShowsAll(u, has, id, items[1..]);
    }
  }

  lemma {:induction false} CompletePeels(u: Universe, has: Has, id: Id)
    requires Complete(u, has, id)
    ensures Peeled(u, has, id) == Peeled(u, EVERYTHING, id)
    decreases id, 1, 0
  {
    match u(id).parts {
      case Commit(tree) => CompletePeels(u, has, tree);
      case Tag(target) => CompletePeels(u, has, target);
      case Tree(items) => CompleteShowsAll(u, has, id, items);
      case Blob =>
    }
  }

  // ---- What a commit reads as

  datatype Asked = Asked(keys: Keys, maxBytes: nat)

  /** The documents a commit holds, in a database that has what `has` says. */
  function DocumentsAt(u: Universe, has: Has, asked: Asked, commit: Id): (r: Option<seq<Pair>>) {
    match Peeled(u, has, commit)
    case None => None
    case Some(tree) =>
      if Readable(tree, asked.keys, asked.maxBytes)
      then Some(Texts(tree, PathsOf(tree, asked.keys).value))
      else None
  }

  function Texts(tree: seq<Entry>, paths: seq<string>): (r: seq<Pair>)
    requires AllReadable(tree, paths)
    ensures Answers(tree, paths, r)
  {
    seq(|paths|, i requires 0 <= i < |paths| => Pair(paths[i], BlobAt(tree, paths[i]).value.text))
  }

  /** Whether what was asked for can be read: the commit comes down to a tree, and the tree can be read. */
  predicate CanRead(u: Universe, has: Has, asked: Asked, commit: Id) {
    Peeled(u, has, commit).Some? && Readable(Peeled(u, has, commit).value, asked.keys, asked.maxBytes)
  }

  /** The documents are all that was asked for, in its order, each with the text the commit's one tree has for it. */
  predicate HoldsIn(u: Universe, has: Has, asked: Asked, commit: Id, documents: seq<Pair>) {
    && CanRead(u, has, asked, commit)
    && var tree := Peeled(u, has, commit).value;
       Answers(tree, PathsOf(tree, asked.keys).value, documents)
  }

  /** What a transfer of the commit shows, in every database that then has it complete. */
  predicate Holds(u: Universe, asked: Asked, commit: Id, documents: seq<Pair>) {
    HoldsIn(u, EVERYTHING, asked, commit, documents)
  }

  /** A commit holds one list of documents for what was asked. */
  lemma HoldsOne(u: Universe, has: Has, asked: Asked, commit: Id, a: seq<Pair>, b: seq<Pair>)
    requires HoldsIn(u, has, asked, commit, a) && HoldsIn(u, has, asked, commit, b)
    ensures a == b
  {
    assert forall i :: 0 <= i < |a| ==> a[i] == b[i];
  }

  /** The documents read are the documents held, and nothing is read where nothing can be. */
  lemma DocumentsIff(u: Universe, has: Has, asked: Asked, commit: Id)
    ensures DocumentsAt(u, has, asked, commit).Some? <==> CanRead(u, has, asked, commit)
    ensures forall documents ::
              DocumentsAt(u, has, asked, commit) == Some(documents) <==> HoldsIn(u, has, asked, commit, documents)
  {
    forall documents | HoldsIn(u, has, asked, commit, documents)
      ensures DocumentsAt(u, has, asked, commit) == Some(documents)
    {
      HoldsOne(u, has, asked, commit, documents, DocumentsAt(u, has, asked, commit).value);
    }
  }

  lemma CompleteReadsFresh(u: Universe, held: set<Id>, asked: Asked, commit: Id)
    requires Complete(u, Holding(held), commit)
    ensures DocumentsAt(u, Holding(held), asked, commit) == DocumentsAt(u, EVERYTHING, asked, commit)
  {
    CompletePeels(u, Holding(held), commit);
  }

  /** `read_documents`, on the commit's tree as the database has it. */
  method ReadCommit(u: Universe, held: set<Id>, asked: Asked, commit: Id) returns (documents: Option<seq<Pair>>)
    ensures documents == DocumentsAt(u, Holding(held), asked, commit)
    ensures documents.Some? <==> CanRead(u, Holding(held), asked, commit)
    ensures documents.Some? ==> HoldsIn(u, Holding(held), asked, commit, documents.value)
  {
    var tree := Peeled(u, Holding(held), commit);
    if tree.None? {
      return None;
    }
    var read := ReadDocuments(tree.value, asked.keys, asked.maxBytes);
    if read.Err? {
      return None;
    }
    assert read.value == Texts(tree.value, PathsOf(tree.value, asked.keys).value);
    documents := Some(read.value);
  }
}
