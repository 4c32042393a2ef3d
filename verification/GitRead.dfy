/**
 Reading documents out of one commit's tree: how a path is looked up, what one read may cost, and
 what a directory read comes to.
 */
module GitRead {
  import opened Documents
  import opened GitTree
  import opened Ordering
  import opened Wrappers

  datatype Keys = One(path: string) | Several(paths: seq<string>) | Prefix(directory: string)

  datatype ReadError =
    | Nothing | Missing | Unreadable | IsDirectory | IsLink | IsSubmodule
    | TooLarge | OverBudget | NotUtf8 | NotADirectory | Listing(walk: WalkError)

  // ---- Looking a path up

  /** The first entry of a directory that has the name. */
  function Find(entries: seq<Entry>, name: string): (r: Option<Node>)
    ensures r.None? <==> forall i :: 0 <= i < |entries| ==> entries[i].name != Utf8(name)
    ensures r.Some? ==>
              exists i :: 0 <= i < |entries| && entries[i] == Entry(Utf8(name), r.value)
                          && forall j :: 0 <= j < i ==> entries[j].name != Utf8(name)
  {
    if entries == [] then None
    else if entries[0].name == Utf8(name) then
      assert entries[0] == Entry(Utf8(name), entries[0].node);
      Some(entries[0].node)
    else
      var rest := Find(entries[1..], name);
      assert forall i :: 0 < i < |entries| ==> entries[i] == entries[1..][i - 1];
      assert rest.Some? ==>
        exists i :: 0 <= i < |entries[1..]| && entries[1..][i] == Entry(Utf8(name), rest.value)
                    && forall j :: 0 <= j < i ==> entries[1..][j].name != Utf8(name);
      rest
  }

  /** `lookup_entry`: one component a directory, down to the last. */
  function Lookup(entries: seq<Entry>, components: seq<string>): (r: Result<Node, ReadError>)
    ensures r.Err? ==> r.error == Missing || r.error == Unreadable
    decreases |components|
  {
    if components == [] then
      Err(Missing)
    else
      match Find(entries, components[0])
      case None => Err(Missing)
      case Some(node) =>
        if |components| == 1 then Ok(node)
        else
          match node
          case Dir(below) => Lookup(below, components[1..])
          case File(_, _) => Err(Missing)
          case Link => Err(Missing)
          case _ => Err(Unreadable)
  }

  // ---- What a path reads as

  datatype TextFile = TextFile(size: nat, text: string)

  /** The document a path names: a regular file whose contents are text. */
  function BlobAt(tree: seq<Entry>, path: string): (r: Option<TextFile>) {
    match Lookup(tree, Split(path))
    case Ok(File(size, Text(text))) => Some(TextFile(size, text))
    case _ => None
  }

  predicate AllReadable(tree: seq<Entry>, paths: seq<string>) {
    forall i :: 0 <= i < |paths| ==> BlobAt(tree, paths[i]).Some?
  }

  /** What a list of paths costs. */
  function Cost(tree: seq<Entry>, paths: seq<string>): (r: nat) {
    if paths == [] then 0
    else Cost(tree, paths[..|paths| - 1]) + SizeAt(tree, paths[|paths| - 1])
  }

  function SizeAt(tree: seq<Entry>, path: string): (r: nat) {
    match BlobAt(tree, path)
    case Some(blob) => blob.size
    case None => 0
  }

  lemma {:induction false} CostGrows(tree: seq<Entry>, paths: seq<string>, k: nat)
    requires k <= |paths|
    ensures Cost(tree, paths[..k]) <= Cost(tree, paths)
  {
    if k < |paths| {
      assert paths[..|paths| - 1][..k] == paths[..k];
      CostGrows(tree, paths[..|paths| - 1], k);
    } else {
      assert paths[..k] == paths;
    }
  }

  /** The paths in order, each with the text the tree holds for it. */
  predicate Answers(tree: seq<Entry>, paths: seq<string>, documents: seq<Pair>) {
    && |documents| == |paths|
    && forall i :: 0 <= i < |paths| ==>
         BlobAt(tree, paths[i]).Some? && documents[i] == Pair(paths[i], BlobAt(tree, paths[i]).value.text)
  }

  /** `trim_end_matches('/')`. */
  function Trimmed(directory: string): (r: string)
    ensures r <= directory
    ensures forall i :: |r| <= i < |directory| ==> directory[i] == '/'
    ensures r == "" || r[|r| - 1] != '/'
  {
    if directory == "" || directory[|directory| - 1] != '/' then directory
    else Trimmed(directory[..|directory| - 1])
  }

  /** Where a directory read starts. */
  function StartOf(tree: seq<Entry>, root: string): (r: Option<seq<Entry>>) {
    if root == "" then Some(tree)
    else
      match Lookup(tree, Split(root))
      case Ok(Dir(entries)) => Some(entries)
      case _ => None
  }

  /** The paths a source asks for, where the tree can say. */
  function PathsOf(tree: seq<Entry>, keys: Keys): (r: Option<seq<string>>) {
    match keys
    case One(path) => Some([path])
    case Several(paths) => Some(paths)
    case Prefix(directory) =>
      var root := Trimmed(directory);
      match StartOf(tree, root)
      case Some(start) => if Listable(root, start) then Some(Sort(Leaves(root, start))) else None
      case None => None
  }

  /** A read that can succeed: there is something to read, all of it is text, and all of it fits. */
  predicate Readable(tree: seq<Entry>, keys: Keys, maxBytes: nat) {
    match PathsOf(tree, keys)
    case None => false
    case Some(paths) => paths != [] && AllReadable(tree, paths) && Cost(tree, paths) <= maxBytes
  }

  // ---- The read

  class Budget {
    const maxBytes: nat
    var left: nat

    constructor Of(maxBytes: nat)
      ensures this.maxBytes == maxBytes && left == maxBytes
    {
      this.maxBytes := maxBytes;
      left := maxBytes;
    }
  }

  /** `under`. */
  method Under(tree: seq<Entry>, directory: string) returns (result: Result<seq<string>, ReadError>)
    ensures result.Ok? <==> PathsOf(tree, Prefix(directory)).Some?
    ensures result.Ok? ==> result.value == PathsOf(tree, Prefix(directory)).value
    ensures result != Err(Listing(NotUnderPrefix))
  {
    var root := Trimmed(directory);
    var start := tree;
    if root != "" {
      var entry := Lookup(tree, Split(root));
      match entry {
        case Err(error) => return Err(error);
        case Ok(Dir(entries)) => start := entries;
        case Ok(LostDir) => return Err(Unreadable);
        case Ok(_) => return Err(NotADirectory);
      }
    }
    var found := Walk(root, start);
    match found {
      case Ok(paths) => result := Ok(paths);
      case Err(walk) => result := Err(Listing(walk));
    }
  }

  /** What one read takes off the budget: the size of any file whose header can be read and fits. */
  function Charge(tree: seq<Entry>, path: string, left: nat): (r: nat)
    ensures r <= left
  {
    match Lookup(tree, Split(path))
    case Ok(File(size, _)) => if size <= left then size else 0
    case _ => 0
  }

  /**
   `read_blob`: the text when the path is a text file that fits in what is left, whose size it then
   takes off. The budget is taken before the contents are, so a file that fits and then cannot be
   read, or is not text, has been paid for too; nothing else has.
   */
  method ReadBlob(tree: seq<Entry>, path: string, budget: Budget) returns (result: Result<string, ReadError>)
    requires budget.left <= budget.maxBytes
    modifies budget`left
    ensures result.Ok? <==> BlobAt(tree, path).Some? && SizeAt(tree, path) <= old(budget.left)
    ensures result.Ok? ==> result.value == BlobAt(tree, path).value.text
    ensures var found := Lookup(tree, Split(path));
            && (result == Err(TooLarge) <==> found.Ok? && found.value.File? && budget.maxBytes < found.value.size)
            && (result == Err(OverBudget) <==>
                  found.Ok? && found.value.File? && old(budget.left) < found.value.size <= budget.maxBytes)
            && (result == Err(IsDirectory) <==> found.Ok? && (found.value.Dir? || found.value.LostDir?))
            && (result == Err(IsLink) <==> found == Ok(Link))
            && (result == Err(IsSubmodule) <==> found == Ok(Submodule))
    ensures budget.left == old(budget.left) - Charge(tree, path, old(budget.left))
    ensures result.Ok? ==> Charge(tree, path, old(budget.left)) == SizeAt(tree, path)
  {
    var entry := Lookup(tree, Split(path));
    match entry {
      case Err(error) => return Err(error);
      case Ok(Dir(_)) => return Err(IsDirectory);
      case Ok(LostDir) => return Err(IsDirectory);
      case Ok(Link) => return Err(IsLink);
      case Ok(Submodule) => return Err(IsSubmodule);
      case Ok(LostFile) => return Err(Unreadable);
      case Ok(File(size, contents)) =>
        if size > budget.maxBytes {
          return Err(TooLarge);
        }
        if size > budget.left {
          return Err(OverBudget);
        }
        budget.left := budget.left - size;
        match contents {
          case Text(text) => result := Ok(text);
          case NotText => result := Err(NotUtf8);
          case Unread => result := Err(Unreadable);
        }
    }
  }

  /** The first `i` paths read: their documents, and what they cost taken off the limit. */
  ghost predicate Spent(tree: seq<Entry>, paths: seq<string>, i: nat, documents: seq<Pair>, left: nat, maxBytes: nat) {
    i <= |paths| && left + Cost(tree, paths[..i]) == maxBytes && Answers(tree, paths[..i], documents)
  }

  lemma SpendsMore(tree: seq<Entry>, paths: seq<string>, i: nat, documents: seq<Pair>, left: nat, maxBytes: nat)
    requires Spent(tree, paths, i, documents, left, maxBytes) && i < |paths|
    requires BlobAt(tree, paths[i]).Some? && SizeAt(tree, paths[i]) <= left
    ensures Spent(tree, paths, i + 1, documents + [Pair(paths[i], BlobAt(tree, paths[i]).value.text)],
                  left - SizeAt(tree, paths[i]), maxBytes)
  {
    assert paths[..i + 1][..i] == paths[..i];
  }

  lemma CannotSpend(tree: seq<Entry>, paths: seq<string>, i: nat, documents: seq<Pair>, left: nat, maxBytes: nat)
    requires Spent(tree, paths, i, documents, left, maxBytes) && i < |paths|
    requires BlobAt(tree, paths[i]).None? || SizeAt(tree, paths[i]) > left
    ensures !(AllReadable(tree, paths) && Cost(tree, paths) <= maxBytes)
  {
    assert paths[..i + 1][..i] == paths[..i];
    CostGrows(tree, paths, i + 1);
  }

  method ReadAll(tree: seq<Entry>, paths: seq<string>, maxBytes: nat) returns (result: Result<seq<Pair>, ReadError>)
    ensures result.Ok? <==> AllReadable(tree, paths) && Cost(tree, paths) <= maxBytes
    ensures result.Ok? ==> Answers(tree, paths, result.value)
  {
    var documents: seq<Pair> := [];
    var budget := new Budget.Of(maxBytes);
    var i := 0;
    while i < |paths|
      invariant 0 <= i <= |paths| && budget.left <= budget.maxBytes == maxBytes
      invariant Spent(tree, paths, i, documents, budget.left, maxBytes)
    {
      ghost var left := budget.left;
      var text := ReadBlob(tree, paths[i], budget);
      if text.Err? {
        CannotSpend(tree, paths, i, documents, left, maxBytes);
        return Err(text.error);
      }
      SpendsMore(tree, paths, i, documents, left, maxBytes);
      documents := documents + [Pair(paths[i], text.value)];
      i := i + 1;
    }
    assert paths[..i] == paths;
    result := Ok(documents);
  }

  /**
   `read_documents`: all or nothing, and exact. It succeeds when there is something to read, every
   path is a text file, and the sizes of all of them together come to no more than the limit; the
   documents are then the paths in order, each with its own text out of the one tree.
   */
  method ReadDocuments(tree: seq<Entry>, keys: Keys, maxBytes: nat) returns (result: Result<seq<Pair>, ReadError>)
    ensures result.Ok? <==> Readable(tree, keys, maxBytes)
    ensures result.Ok? ==> Answers(tree, PathsOf(tree, keys).value, result.value)
    ensures result.Ok? && keys.One? ==> Answers(tree, [keys.path], result.value)
    ensures result.Ok? && keys.Several? ==> Answers(tree, keys.paths, result.value)
  {
    var paths: seq<string>;
    match keys {
      case One(path) => paths := [path];
      case Several(several) => paths := several;
      case Prefix(directory) =>
        var listed := Under(tree, directory);
        if listed.Err? {
          return Err(listed.error);
        }
        paths := listed.value;
    }
    if paths == [] {
      return Err(Nothing);
    }
    result := ReadAll(tree, paths, maxBytes);
  }

  // ---- What a directory read comes to

  /** Trees as git writes them: no two entries of a directory share a name, and no name holds a slash. */
  predicate Sane(entries: seq<Entry>)
    decreases entries
  {
    && (forall i, j :: 0 <= i < j < |entries| ==> entries[i].name != entries[j].name)
    && (forall i :: 0 <= i < |entries| ==> SaneEntry(entries[i]))
  }

  predicate SaneEntry(entry: Entry)
    decreases entry
  {
    && (entry.name.Utf8? ==> '/' !in entry.name.text)
    && (entry.node.Dir? ==> Sane(entry.node.entries))
  }

  function Components(at: string): (r: seq<string>) {
    if at == "" then [] else Split(at)
  }

  lemma {:induction false} SplitName(name: string)
    requires '/' !in name
    ensures Split(name) == [name]
  {
    if name != "" {
      assert name[0] in name && forall c :: c in name[1..] ==> c in name;
      SplitName(name[1..]);
      assert [name[0]] + name[1..] == name;
    }
  }

  /** Joining a name adds one component. */
  lemma JoinAddsOne(at: string, name: string)
    requires '/' !in name && name != ""
    ensures Components(Join(at, name)) == Components(at) + [name]
    ensures Join(at, name) != ""
  {
    SplitName(name);
    if at != "" { SplitJoin(at, name); }
  }

  lemma {:induction false} LookupThrough(tree: seq<Entry>, first: seq<string>, below: seq<Entry>, second: seq<string>)
    requires Lookup(tree, first) == Ok(Dir(below)) && second != []
    ensures Lookup(tree, first + second) == Lookup(below, second)
    decreases |first|
  {
    assert (first + second)[0] == first[0];
    assert (first + second)[1..] == first[1..] + second;
    if |first| > 1 {
      LookupThrough(Find(tree, first[0]).value.entries, first[1..], below, second);
    } else {
      assert first[1..] + second == second;
    }
  }

  lemma {:induction false} FindsItself(entries: seq<Entry>, i: nat)
    requires i < |entries| && entries[i].name.Utf8?
    requires forall j, k :: 0 <= j < k < |entries| ==> entries[j].name != entries[k].name
    ensures Find(entries, entries[i].name.text) == Some(entries[i].node)
  {
    if i > 0 {
      assert entries[0].name != entries[i].name;
      FindsItself(entries[1..], i - 1);
    }
  }

  /** The directory `at` of the tree is `here`. */
  predicate IsAt(tree: seq<Entry>, at: string, here: seq<Entry>) {
    if at == "" then here == tree else Lookup(tree, Split(at)) == Ok(Dir(here))
  }

  /** Looking up one more component than a directory's own path. */
  lemma LookupBelow(tree: seq<Entry>, at: string, here: seq<Entry>, rest: seq<string>)
    requires IsAt(tree, at, here) && rest != []
    ensures Lookup(tree, Components(at) + rest) == Lookup(here, rest)
  {
    if at == "" {
      assert Components(at) + rest == rest;
    } else {
      LookupThrough(tree, Split(at), here, rest);
    }
  }

  lemma EmptyNameRefused(at: string)
    ensures !CheckPath(Join(at, ""))
  {
    if at != "" {
      SplitJoin(at, "");
      assert Split(Join(at, ""))[|Split(at)|] == "";
    }
  }

  lemma EntryIsFound(tree: seq<Entry>, at: string, here: seq<Entry>, i: nat)
    requires IsAt(tree, at, here) && Sane(here) && i < |here| && SoundEntry(at, here[i])
    ensures var path := PathOf(at, here[i]);
            && path != "" && Split(path) == Components(at) + [here[i].name.text]
            && Lookup(tree, Split(path)) == Ok(here[i].node)
  {
    var name := here[i].name.text;
    assert SaneEntry(here[i]);
    EmptyNameRefused(at);
    JoinAddsOne(at, name);
    FindsItself(here, i);
    LookupBelow(tree, at, here, [name]);
  }

  /** Every leaf of a directory, with what the walk saw there. */
  predicate Found(tree: seq<Entry>, at: string, entries: seq<Entry>)
    decreases entries
  {
    entries == [] || (FoundEntry(tree, at, entries[0]) && Found(tree, at, entries[1..]))
  }

  predicate FoundEntry(tree: seq<Entry>, at: string, entry: Entry)
    decreases entry
  {
    var path := PathOf(at, entry);
    match entry.node
    case Dir(below) => Found(tree, path, below)
    case node => Lookup(tree, Split(path)) == Ok(node)
  }

  /** Every path a walk lists is looked up, in the same tree, as the very file the walk saw. */
  lemma {:induction false} LeavesAreFound(tree: seq<Entry>, at: string, here: seq<Entry>, i: nat)
    requires IsAt(tree, at, here) && Sane(here) && i <= |here| && Sound(at, here[i..])
    ensures Found(tree, at, here[i..])
    decreases here, |here| - i
  {
    if i < |here| {
      var entry := here[i];
      assert here[i..][0] == entry && here[i..][1..] == here[i + 1..];
      EntryIsFound(tree, at, here, i);
      if entry.node.Dir? {
        assert SaneEntry(entry);
        assert entry.node.entries[0..] == entry.node.entries;
        LeavesAreFound(tree, PathOf(at, entry), entry.node.entries, 0);
      }
      LeavesAreFound(tree, at, here, i + 1);
    }
  }

  /** What the walk lists is no directory. */
  lemma {:induction false} FoundLeaf(tree: seq<Entry>, at: string, entries: seq<Entry>, path: string)
    requires Found(tree, at, entries) && Sound(at, entries) && path in Leaves(at, entries)
    ensures Lookup(tree, Split(path)).Ok? && !Lookup(tree, Split(path)).value.Dir?
    decreases entries
  {
    if path in LeavesOf(at, entries[0]) {
      FoundLeafOf(tree, at, entries[0], path);
    } else {
      FoundLeaf(tree, at, entries[1..], path);
    }
  }

  lemma {:induction false} FoundLeafOf(tree: seq<Entry>, at: string, entry: Entry, path: string)
    requires FoundEntry(tree, at, entry) && SoundEntry(at, entry) && path in LeavesOf(at, entry)
    ensures Lookup(tree, Split(path)).Ok? && !Lookup(tree, Split(path)).value.Dir?
    decreases entry
  {
    if entry.node.Dir? {
      FoundLeaf(tree, PathOf(at, entry), entry.node.entries, path);
    }
  }

  /** `components` below `at`, as a path. */
  function PathBelow(at: string, components: seq<string>): (r: string)
    decreases |components|
  {
    if components == [] then at else PathBelow(Join(at, components[0]), components[1..])
  }

  lemma {:induction false} EntryListed(at: string, entries: seq<Entry>, i: nat, path: string)
    requires i < |entries| && path in LeavesOf(at, entries[i])
    ensures path in Leaves(at, entries)
  {
    if i > 0 {
      assert entries[1..][i - 1] == entries[i];
      EntryListed(at, entries[1..], i - 1, path);
    }
  }

  lemma {:induction false} SoundAt(at: string, entries: seq<Entry>, i: nat)
    requires i < |entries| && Sound(at, entries)
    ensures SoundEntry(at, entries[i])
  {
    if i > 0 { SoundAt(at, entries[1..], i - 1); }
  }

  /** Nothing that can be looked up below a directory, and is not itself one, is left out of its listing. */
  lemma {:induction false} NothingLeftOut(at: string, here: seq<Entry>, components: seq<string>)
    requires Sound(at, here)
    requires Lookup(here, components).Ok? && !Lookup(here, components).value.Dir?
    ensures PathBelow(at, components) in Leaves(at, here)
    decreases |components|
  {
    var node := Find(here, components[0]).value;
    var i :| 0 <= i < |here| && here[i] == Entry(Utf8(components[0]), node);
    SoundAt(at, here, i);
    var path := Join(at, components[0]);
    if |components| > 1 {
      NothingLeftOut(path, node.entries, components[1..]);
    } else {
      assert PathBelow(path, components[1..]) == path;
    }
    EntryListed(at, here, i, PathBelow(at, components));
  }

  // ---- No file is listed twice

  /** The path goes through the entry. */
  predicate StartsWith(at: string, entry: Entry, path: string) {
    entry.name.Utf8? && Components(at) + [entry.name.text] <= Split(path)
  }

  lemma {:induction false} LeafStartsWith(at: string, entry: Entry, path: string)
    requires SoundEntry(at, entry) && SaneEntry(entry) && path in LeavesOf(at, entry)
    ensures StartsWith(at, entry, path)
    decreases entry
  {
    var name := entry.name.text;
    SplitName(name);
    EmptyNameRefused(at);
    JoinAddsOne(at, name);
    if entry.node.Dir? {
      LeafOfStartsWith(PathOf(at, entry), entry.node.entries, path);
    }
  }

  lemma {:induction false} LeafOfStartsWith(at: string, entries: seq<Entry>, path: string)
    requires Sound(at, entries) && (forall i :: 0 <= i < |entries| ==> SaneEntry(entries[i]))
    requires path in Leaves(at, entries)
    ensures exists i :: 0 <= i < |entries| && StartsWith(at, entries[i], path)
    decreases entries
  {
    if path in LeavesOf(at, entries[0]) {
      LeafStartsWith(at, entries[0], path);
    } else {
      LeafOfStartsWith(at, entries[1..], path);
      var i :| 0 <= i < |entries[1..]| && StartsWith(at, entries[1..][i], path);
      assert entries[i + 1] == entries[1..][i];
    }
  }

  /** Below two entries of different names there is no path in common. */
  lemma {:induction false} NoFileTwice(at: string, entries: seq<Entry>)
    requires Sound(at, entries) && Sane(entries)
    ensures Distinct(Leaves(at, entries))
    decreases entries
  {
    if entries != [] {
      var entry, rest := entries[0], entries[1..];
      NoFileTwiceOf(at, entry);
      NoFileTwice(at, rest);
      forall path | path in LeavesOf(at, entry) && path in Leaves(at, rest)
        ensures false
      {
        LeafStartsWith(at, entry, path);
        LeafOfStartsWith(at, rest, path);
        var i :| 0 <= i < |rest| && StartsWith(at, rest[i], path);
        SameComponent(Components(at), entry.name.text, rest[i].name.text, Split(path));
      }
      DistinctApart(LeavesOf(at, entry), Leaves(at, rest));
    }
  }

  lemma {:induction false} NoFileTwiceOf(at: string, entry: Entry)
    requires SoundEntry(at, entry) && SaneEntry(entry)
    ensures Distinct(LeavesOf(at, entry))
    decreases entry
  {
    if entry.node.Dir? {
      NoFileTwice(PathOf(at, entry), entry.node.entries);
    }
  }

  predicate Distinct(paths: seq<string>) {
    forall i, j :: 0 <= i < j < |paths| ==> paths[i] != paths[j]
  }

  lemma DistinctApart(a: seq<string>, b: seq<string>)
    requires Distinct(a) && Distinct(b) && forall path :: path in a && path in b ==> false
    ensures Distinct(a + b)
  {
    forall i, j | 0 <= i < j < |a + b|
      ensures (a + b)[i] != (a + b)[j]
    {
      if i < |a| <= j {
        assert (a + b)[i] in a && (a + b)[j] in b;
      }
    }
  }

  lemma SameComponent(at: seq<string>, a: string, b: string, components: seq<string>)
    requires at + [a] <= components && at + [b] <= components
    ensures a == b
  {
    assert (at + [a])[|at|] == components[|at|] == (at + [b])[|at|];
  }

  lemma SameMembers(a: seq<string>, b: seq<string>)
    requires multiset(a) == multiset(b)
    ensures forall x :: x in a <==> x in b
  {
    forall x ensures x in a <==> x in b {
      assert x in a <==> x in multiset(a);
      assert x in b <==> x in multiset(b);
    }
  }

  lemma {:induction false} CountedOnce(s: seq<string>, x: string)
    requires Distinct(s)
    ensures multiset(s)[x] <= 1
  {
    if s != [] {
      assert s == [s[0]] + s[1..];
      CountedOnce(s[1..], x);
      if s[0] == x {
        assert x !in multiset(s[1..]);
      }
    }
  }

  lemma SortedOnce(a: seq<string>, b: seq<string>)
    requires Distinct(a) && Sorted(b) && multiset(a) == multiset(b)
    ensures StrictlySorted(b)
  {
    forall i, j | 0 <= i < j < |b|
      ensures Less(b[i], b[j])
    {
      LessIsTotal(b[i], b[j]);
      if b[i] == b[j] {
        CountedOnce(a, b[i]);
        CountedTwice(b, i, j);
        assert false;
      }
    }
  }

  lemma CountedTwice(s: seq<string>, i: nat, j: nat)
    requires i < j < |s| && s[i] == s[j]
    ensures multiset(s)[s[i]] >= 2
  {
    assert s == (s[..i] + [s[i]]) + (s[i + 1..j] + [s[j]] + s[j + 1..]);
  }

  lemma {:induction false} LookupKeepsSane(tree: seq<Entry>, components: seq<string>)
    requires Sane(tree) && Lookup(tree, components).Ok? && Lookup(tree, components).value.Dir?
    ensures Sane(Lookup(tree, components).value.entries)
    decreases |components|
  {
    var node := Find(tree, components[0]).value;
    var i :| 0 <= i < |tree| && tree[i] == Entry(Utf8(components[0]), node);
    assert SaneEntry(tree[i]);
    if |components| > 1 { LookupKeepsSane(node.entries, components[1..]); }
  }

  /**
   A directory read is the directory, whole: in a tree as git writes them, the paths listed under a
   prefix are, each once, exactly those below it that name something other than a directory; and
   looking each of them up again finds it.
   */
  lemma PrefixIsTheSubtree(tree: seq<Entry>, directory: string, start: seq<Entry>)
    requires PathsOf(tree, Prefix(directory)).Some?
    requires Sane(tree) && StartOf(tree, Trimmed(directory)) == Some(start)
    ensures var root := Trimmed(directory);
            var paths := PathsOf(tree, Prefix(directory)).value;
            && StrictlySorted(paths)
            && Found(tree, root, start)
            && (forall path :: path in paths ==>
                  Lookup(tree, Split(path)).Ok? && !Lookup(tree, Split(path)).value.Dir?)
            && (forall below :: Lookup(start, below).Ok? && !Lookup(start, below).value.Dir? ==>
                  PathBelow(root, below) in paths)
  {
    var root := Trimmed(directory);
    var leaves := Leaves(root, start);
    var paths := Sort(leaves);
    SameMembers(leaves, paths);
    if root != "" { LookupKeepsSane(tree, Split(root)); }
    assert start[0..] == start;
    LeavesAreFound(tree, root, start, 0);
    forall path | path in paths
      ensures Lookup(tree, Split(path)).Ok? && !Lookup(tree, Split(path)).value.Dir?
    {
      FoundLeaf(tree, root, start, path);
    }
    forall below | Lookup(start, below).Ok? && !Lookup(start, below).value.Dir?
      ensures PathBelow(root, below) in paths
    {
      NothingLeftOut(root, start, below);
    }
    NoFileTwice(root, start);
    SortedOnce(leaves, paths);
  }
}
