/**
 A commit's tree, the paths it can be asked for, and the walk that lists a directory of it.

 A name is bytes the remote chose, so it may not be text and may be `..`; an object a tree names
 may not be readable. Nothing else about a tree is assumed.
 */
module GitTree {
  import opened Documents
  import opened Ordering
  import opened Wrappers

  datatype Name = Utf8(text: string) | RawBytes

  datatype Node =
    | File(size: nat, contents: Contents)   // a blob whose header can be read
    | LostFile                              // a blob whose header cannot
    | Link
    | Submodule
    | Dir(entries: seq<Entry>)
    | LostDir                               // a tree that cannot be read

  /** What a blob holds: text, bytes that are not UTF-8, or something that cannot be read. */
  datatype Contents = Text(text: string) | NotText | Unread

  datatype Entry = Entry(name: Name, node: Node)

  // ---- Paths

  /** `path.split('/')`: one component more than there are slashes. */
  function Split(path: string): (r: seq<string>)
    ensures r != []
  {
    if path == "" then [""]
    else if path[0] == '/' then [""] + Split(path[1..])
    else
      var rest := Split(path[1..]);
      [[path[0]] + rest[0]] + rest[1..]
  }

  predicate IsProper(component: string) {
    component != "" && component != "." && component != ".."
  }

  /** `check_path`. */
  predicate CheckPath(path: string) {
    path != "" && path[0] != '/' && forall i :: 0 <= i < |Split(path)| ==> IsProper(Split(path)[i])
  }

  function Join(at: string, name: string): (r: string) {
    if at == "" then name else at + "/" + name
  }

  lemma {:induction false} SplitJoin(at: string, rest: string)
    ensures Split(at + "/" + rest) == Split(at) + Split(rest)
  {
    var whole := at + "/" + rest;
    if at == "" {
      assert whole[1..] == rest;
    } else {
      assert whole[1..] == at[1..] + "/" + rest;
      SplitJoin(at[1..], rest);
    }
  }

  /** A path that passes has no component that is empty or that leaves its directory, and conversely. */
  lemma CheckPathMeansProper(path: string)
    ensures CheckPath(path) <==> "" !in Split(path) && "." !in Split(path) && ".." !in Split(path)
  {
    if path != "" && path[0] == '/' { assert Split(path)[0] == "" && "" in Split(path); }
    if path == "" { assert "" in Split(path); }
  }

  // ---- What a directory holds, by recursion

  /** The paths of everything below that is not a directory, in tree order. */
  function Leaves(at: string, entries: seq<Entry>): (r: seq<string>)
    decreases entries
  {
    if entries == [] then
      []
    else
      LeavesOf(at, entries[0]) + Leaves(at, entries[1..])
  }

  function LeavesOf(at: string, entry: Entry): (r: seq<string>)
    decreases entry
  {
    var path := PathOf(at, entry);
    match entry.node
    case Dir(below) => Leaves(path, below)
    case LostDir => []
    case _ => [path]
  }

  function PathOf(at: string, entry: Entry): (r: string) {
    Join(at, if entry.name.Utf8? then entry.name.text else "")
  }

  /** How many directories are below, those that cannot be read included. */
  function Dirs(entries: seq<Entry>): (r: nat)
    decreases entries
  {
    if entries == [] then 0 else DirsOf(entries[0]) + Dirs(entries[1..])
  }

  function DirsOf(entry: Entry): (r: nat)
    decreases entry
  {
    match entry.node
    case Dir(below) => 1 + Dirs(below)
    case LostDir => 1
    case _ => 0
  }

  /** Every name below is text, every path passes `CheckPath`, and every directory can be read. */
  predicate Sound(at: string, entries: seq<Entry>)
    decreases entries
  {
    entries == [] || (SoundEntry(at, entries[0]) && Sound(at, entries[1..]))
  }

  predicate SoundEntry(at: string, entry: Entry)
    decreases entry
  {
    && entry.name.Utf8?
    && CheckPath(PathOf(at, entry))
    && !entry.node.LostDir?
    && (entry.node.Dir? ==> Sound(PathOf(at, entry), entry.node.entries))
  }

  /** Enough steps to walk everything below. */
  function Weight(entries: seq<Entry>): (r: nat)
    decreases entries
  {
    if entries == [] then 1 else WeightOf(entries[0]) + Weight(entries[1..])
  }

  function WeightOf(entry: Entry): (r: nat)
    decreases entry
  {
    if entry.node.Dir? then 1 + Weight(entry.node.entries) else 1
  }

  // ---- The stack of directories still to be walked

  datatype Pending = Pending(at: string, entries: seq<Entry>)

  /** What a part of a directory comes to: its files, how many directories, and whether it is sound. */
  datatype Total = Total(leaves: multiset<string>, dirs: nat, sound: bool)

  function Plus(a: Total, b: Total): (r: Total) {
    Total(a.leaves + b.leaves, a.dirs + b.dirs, a.sound && b.sound)
  }

  function TotalOf(pending: Pending): (r: Total) {
    Total(multiset(Leaves(pending.at, pending.entries)), Dirs(pending.entries), Sound(pending.at, pending.entries))
  }

  function EntryTotal(at: string, entry: Entry): (r: Total) {
    Total(multiset(LeavesOf(at, entry)), DirsOf(entry), SoundEntry(at, entry))
  }

  function StackTotal(stack: seq<Pending>): (r: Total) {
    if stack == [] then Total(multiset{}, 0, true)
    else Plus(StackTotal(stack[..|stack| - 1]), TotalOf(stack[|stack| - 1]))
  }

  function StackWeight(stack: seq<Pending>): (r: nat) {
    if stack == [] then 0 else StackWeight(stack[..|stack| - 1]) + Weight(stack[|stack| - 1].entries)
  }

  lemma Pushed(stack: seq<Pending>, top: Pending)
    ensures StackTotal(stack + [top]) == Plus(StackTotal(stack), TotalOf(top))
    ensures StackWeight(stack + [top]) == StackWeight(stack) + Weight(top.entries)
  {
    assert (stack + [top])[..|stack|] == stack;
  }

  lemma TotalSplits(at: string, entry: Entry, rest: seq<Entry>)
    ensures TotalOf(Pending(at, [entry] + rest)) == Plus(EntryTotal(at, entry), TotalOf(Pending(at, rest)))
    ensures Weight([entry] + rest) == WeightOf(entry) + Weight(rest)
  {
    var entries := [entry] + rest;
    assert entries[0] == entry && entries[1..] == rest;
    assert Leaves(at, entries) == LeavesOf(at, entry) + Leaves(at, rest);
  }

  lemma DirTotal(at: string, entry: Entry)
    requires entry.name.Utf8? && CheckPath(PathOf(at, entry)) && entry.node.Dir?
    ensures EntryTotal(at, entry) == Plus(Total(multiset{}, 1, true),
                                          TotalOf(Pending(PathOf(at, entry), entry.node.entries)))
  {
  }

  lemma FileTotal(at: string, entry: Entry)
    requires entry.name.Utf8? && CheckPath(PathOf(at, entry)) && !entry.node.Dir? && !entry.node.LostDir?
    ensures EntryTotal(at, entry) == Total(multiset{PathOf(at, entry)}, 0, true)
  {
  }

  /** Everything pending is the root itself or below it. */
  predicate Inside(root: string, at: string) {
    root == "" || at == root || UnderPrefix(at, root + "/")
  }

  lemma InsideJoins(root: string, at: string, name: string)
    requires Inside(root, at) && root != ""
    ensures UnderPrefix(Join(at, name), root + "/")
  {
    var path := at + "/" + name;
    if at == root {
      assert path[..|root| + 1] == root + "/";
    } else {
      assert path[..|root| + 1] == at[..|root| + 1];
    }
  }

  // ---- The walk

  datatype WalkError = NameNotText | BadPath | NotUnderPrefix | TooManyDirs | TooManyFiles | NotReadable

  /** The two checks on a discovered path. */
  function PathRefusal(root: string, path: string): (r: Option<WalkError>) {
    if !CheckPath(path) then Some(BadPath)
    else if root != "" && !UnderPrefix(path, root + "/") then Some(NotUnderPrefix)
    else None
  }

  /** A directory the walk can list. */
  predicate Listable(root: string, start: seq<Entry>) {
    Sound(root, start) && WithinKeyBudget(Dirs(start)) && WithinKeyBudget(|Leaves(root, start)|)
  }

  /** What the walk has done plus what it has yet to do is the whole directory. */
  ghost predicate Accounted(root: string, start: seq<Entry>, found: seq<string>, descended: nat, left: Total) {
    && Plus(Total(multiset(found), descended, true), left) == TotalOf(Pending(root, start))
    && WithinKeyBudget(|found|) && WithinKeyBudget(descended)
  }

  /** Everything on the stack is the root itself or below it. */
  ghost predicate AllInside(root: string, stack: seq<Pending>) {
    forall k :: 0 <= k < |stack| ==> Inside(root, stack[k].at)
  }

  /**
   `under`, from the directory named: it always comes to an end; it succeeds exactly when every
   name is text, every path is proper, everything can be read and neither budget is passed; then
   its result is every file below, sorted. Its own check against the prefix never fires.
   */
  method Walk(root: string, start: seq<Entry>) returns (result: Result<seq<string>, WalkError>)
    ensures result.Ok? <==> Listable(root, start)
    ensures result.Ok? <==> Sound(root, start) && Dirs(start) <= 512 && |Leaves(root, start)| <= 512
    ensures result.Ok? ==> result.value == Sort(Leaves(root, start))
    ensures result != Err(NotUnderPrefix)
  {
    var found: seq<string> := [];
    var pending := [Pending(root, start)];
    var descended: nat := 0;
    WalkBegins(root, start);
    while pending != []
      invariant Accounted(root, start, found, descended, StackTotal(pending))
      invariant AllInside(root, pending)
      decreases StackWeight(pending)
    {
      var top := pending[|pending| - 1];
      Popped(pending);
      pending := pending[..|pending| - 1];
      var refusal: Option<WalkError>;
      found, descended, pending, refusal := WalkEntries(root, start, top, found, descended, pending);
      if refusal.Some? {
        return Err(refusal.value);
      }
      NothingLeft(root, start, found, descended, pending, top.at);
    }
    WalkEnds(root, start, found, descended);
    result := Ok(Sort(found));
  }

  lemma WalkBegins(root: string, start: seq<Entry>)
    ensures Accounted(root, start, [], 0, StackTotal([Pending(root, start)]))
    ensures AllInside(root, [Pending(root, start)])
  {
    Pushed([], Pending(root, start));
    assert [] + [Pending(root, start)] == [Pending(root, start)];
  }

  lemma Popped(pending: seq<Pending>)
    requires pending != []
    ensures var front, top := pending[..|pending| - 1], pending[|pending| - 1];
            && StackTotal(pending) == Plus(StackTotal(front), TotalOf(Pending(top.at, top.entries)))
            && StackWeight(pending) == StackWeight(front) + Weight(top.entries)
  {
    Pushed(pending[..|pending| - 1], pending[|pending| - 1]);
    assert pending == pending[..|pending| - 1] + [pending[|pending| - 1]];
  }

  lemma WalkEnds(root: string, start: seq<Entry>, found: seq<string>, descended: nat)
    requires Accounted(root, start, found, descended, StackTotal([]))
    ensures Listable(root, start) && Sort(found) == Sort(Leaves(root, start))
  {
    assert multiset(found) == multiset(Leaves(root, start));
    assert |multiset(found)| == |multiset(Leaves(root, start))|;
    SortedIsUnique(Sort(found), Sort(Leaves(root, start)));
  }

  /** The walk with the entries `left` of the directory `at` still to take, ahead of the stack. */
  ghost predicate Walking(root: string, start: seq<Entry>, found: seq<string>, descended: nat, stack: seq<Pending>,
                          at: string, left: seq<Entry>) {
    && Accounted(root, start, found, descended, Plus(StackTotal(stack), TotalOf(Pending(at, left))))
    && Inside(root, at) && AllInside(root, stack)
  }

  /** One directory's entries, in the order the tree lists them; its subdirectories go on the stack. */
  method WalkEntries(root: string, ghost start: seq<Entry>, top: Pending, found0: seq<string>, descended0: nat,
                     pending0: seq<Pending>)
    returns (found: seq<string>, descended: nat, pending: seq<Pending>, refusal: Option<WalkError>)
    requires Walking(root, start, found0, descended0, pending0, top.at, top.entries)
    ensures refusal.None? ==> Walking(root, start, found, descended, pending, top.at, [])
    ensures refusal.None? ==> StackWeight(pending) < StackWeight(pending0) + Weight(top.entries)
    ensures refusal.Some? ==> !Listable(root, start) && refusal.value != NotUnderPrefix
  {
    found, descended, pending, refusal := found0, descended0, pending0, None;
    var at := top.at;
    assert top.entries == top.entries[0..];
    var i := 0;
    while i < |top.entries|
      invariant 0 <= i <= |top.entries|
      invariant refusal.None?
      invariant Walking(root, start, found, descended, pending, at, top.entries[i..])
      invariant StackWeight(pending) + Weight(top.entries[i..]) <= StackWeight(pending0) + Weight(top.entries)
    {
      var entry := top.entries[i];
      ghost var left, found', descended', pending' := top.entries[i + 1..], found, descended, pending;
      assert top.entries[i..] == [entry] + left;
      found, descended, pending, refusal := TakeEntry(root, at, entry, found, descended, pending);
      if refusal.Some? {
        EntryRefuses(root, start, found', descended', pending', at, entry, left);
        return;
      }
      EntryTaken(root, start, found', descended', pending', at, entry, left);
      i := i + 1;
    }
    assert top.entries[i..] == [];
  }

  lemma EntryTaken(root: string, start: seq<Entry>, found: seq<string>, descended: nat, pending: seq<Pending>,
                   at: string, entry: Entry, left: seq<Entry>)
    requires Walking(root, start, found, descended, pending, at, [entry] + left)
    requires !Refuses(at, entry, |found|, descended)
    ensures Walking(root, start, found + FilesOf(at, entry), descended + (if entry.node.Dir? then 1 else 0),
                    pending + BelowOf(at, entry), at, left)
    ensures StackWeight(pending + BelowOf(at, entry)) + Weight(left) < StackWeight(pending) + Weight([entry] + left)
  {
    StaysInside(root, pending, at, entry);
    if entry.node.Dir? {
      DirTaken(root, start, found, descended, pending, at, entry, left);
      assert found + [] == found;
    } else {
      FileTaken(root, start, found, descended, pending, at, entry, left);
      assert pending + [] == pending;
    }
  }

  lemma NothingLeft(root: string, start: seq<Entry>, found: seq<string>, descended: nat, stack: seq<Pending>,
                    at: string)
    requires Walking(root, start, found, descended, stack, at, [])
    ensures Accounted(root, start, found, descended, StackTotal(stack)) && AllInside(root, stack)
  {
    assert Plus(StackTotal(stack), TotalOf(Pending(at, []))) == StackTotal(stack);
  }

  /** An entry no walk can take. */
  predicate Refuses(at: string, entry: Entry, found: nat, descended: nat) {
    || entry.name.RawBytes? || !CheckPath(PathOf(at, entry)) || entry.node.LostDir?
    || (if entry.node.Dir? then !WithinKeyBudget(descended + 1) else !WithinKeyBudget(found + 1))
  }

  /** One entry: refused, or moved to the files found or to the directories pending. */
  method TakeEntry(root: string, at: string, entry: Entry, found0: seq<string>, descended0: nat, pending0: seq<Pending>)
    returns (found: seq<string>, descended: nat, pending: seq<Pending>, refusal: Option<WalkError>)
    requires Inside(root, at)
    ensures refusal.Some? <==> Refuses(at, entry, |found0|, descended0)
    ensures refusal != Some(NotUnderPrefix)
    ensures refusal.None? ==>
              && found == found0 + FilesOf(at, entry)
              && descended == descended0 + (if entry.node.Dir? then 1 else 0)
              && pending == pending0 + BelowOf(at, entry)
  {
    found, descended, pending, refusal := found0, descended0, pending0, None;
    if entry.name.RawBytes? {
      refusal := Some(NameNotText);
      return;
    }
    var path := Join(at, entry.name.text);
    if root != "" { InsideJoins(root, at, entry.name.text); }
    refusal := PathRefusal(root, path);
    if refusal.Some? {
      return;
    }
    match entry.node {
      case Dir(below) =>
        descended := descended + 1;
        if !WithinKeyBudget(descended) {
          refusal := Some(TooManyDirs);
          return;
        }
        pending := pending + [Pending(path, below)];
      case LostDir =>
        descended := descended + 1;
        refusal := Some(if WithinKeyBudget(descended) then NotReadable else TooManyDirs);
      case _ =>
        found := found + [path];
        if !WithinKeyBudget(|found|) {
          refusal := Some(TooManyFiles);
        }
    }
  }

  /** What taking an entry finds at once, and what it leaves for later. */
  function FilesOf(at: string, entry: Entry): (r: seq<string>) {
    if entry.node.Dir? || entry.node.LostDir? then [] else [PathOf(at, entry)]
  }

  function BelowOf(at: string, entry: Entry): (r: seq<Pending>) {
    if entry.node.Dir? then [Pending(PathOf(at, entry), entry.node.entries)] else []
  }

  lemma DirTaken(root: string, start: seq<Entry>, found: seq<string>, descended: nat, pending: seq<Pending>,
                 at: string, entry: Entry, left: seq<Entry>)
    requires Accounted(root, start, found, descended, Plus(StackTotal(pending), TotalOf(Pending(at, [entry] + left))))
    requires entry.node.Dir? && !Refuses(at, entry, |found|, descended)
    ensures Accounted(root, start, found, descended + 1,
                      Plus(StackTotal(pending + BelowOf(at, entry)), TotalOf(Pending(at, left))))
    ensures StackWeight(pending + BelowOf(at, entry)) + Weight(left) < StackWeight(pending) + Weight([entry] + left)
  {
    var below := Pending(PathOf(at, entry), entry.node.entries);
    TotalSplits(at, entry, left);
    DirTotal(at, entry);
    Pushed(pending, below);
    MovesDir(Total(multiset(found), descended, true), StackTotal(pending), TotalOf(below), TotalOf(Pending(at, left)));
  }

  lemma FileTaken(root: string, start: seq<Entry>, found: seq<string>, descended: nat, pending: seq<Pending>,
                  at: string, entry: Entry, left: seq<Entry>)
    requires Accounted(root, start, found, descended, Plus(StackTotal(pending), TotalOf(Pending(at, [entry] + left))))
    requires !entry.node.Dir? && !Refuses(at, entry, |found|, descended)
    ensures Accounted(root, start, found + [PathOf(at, entry)], descended,
                      Plus(StackTotal(pending), TotalOf(Pending(at, left))))
    ensures Weight(left) < Weight([entry] + left)
  {
    TotalSplits(at, entry, left);
    FileTotal(at, entry);
    MovesFile(found, descended, PathOf(at, entry), StackTotal(pending), TotalOf(Pending(at, left)));
  }

  lemma StaysInside(root: string, pending: seq<Pending>, at: string, entry: Entry)
    requires Inside(root, at) && AllInside(root, pending)
    ensures AllInside(root, pending + BelowOf(at, entry))
  {
    if root != "" { InsideJoins(root, at, if entry.name.Utf8? then entry.name.text else ""); }
  }

  lemma MovesDir(done: Total, stack: Total, below: Total, left: Total)
    ensures Plus(done, Plus(stack, Plus(Plus(Total(multiset{}, 1, true), below), left))) ==
            Plus(done.(dirs := done.dirs + 1), Plus(Plus(stack, below), left))
  {
    assert stack.leaves + ((multiset{} + below.leaves) + left.leaves) == (stack.leaves + below.leaves) + left.leaves;
  }

  lemma MovesFile(found: seq<string>, descended: nat, path: string, stack: Total, left: Total)
    ensures Plus(Total(multiset(found), descended, true), Plus(stack, Plus(Total(multiset{path}, 0, true), left))) ==
            Plus(Total(multiset(found + [path]), descended, true), Plus(stack, left))
  {
    assert multiset(found) + (stack.leaves + (multiset{path} + left.leaves)) ==
           multiset(found + [path]) + (stack.leaves + left.leaves);
  }

  /** An entry the walk refuses is one no walk of this directory can get past. */
  lemma EntryRefuses(root: string, start: seq<Entry>, found: seq<string>, descended: nat, pending: seq<Pending>,
                     at: string, entry: Entry, left: seq<Entry>)
    requires Accounted(root, start, found, descended, Plus(StackTotal(pending), TotalOf(Pending(at, [entry] + left))))
    requires Refuses(at, entry, |found|, descended)
    ensures !Listable(root, start)
  {
    TotalSplits(at, entry, left);
    RefusedTotal(root, start, found, descended, StackTotal(pending), EntryTotal(at, entry), TotalOf(Pending(at, left)));
  }

  lemma RefusedTotal(root: string, start: seq<Entry>, found: seq<string>, descended: nat, stack: Total, entry: Total,
                     left: Total)
    requires Accounted(root, start, found, descended, Plus(stack, Plus(entry, left)))
    requires !entry.sound || !WithinKeyBudget(descended + entry.dirs) || !WithinKeyBudget(|found| + |entry.leaves|)
    ensures !Listable(root, start)
  {
    var all := multiset(Leaves(root, start));
    assert |all| == |multiset(found)| + (|stack.leaves| + (|entry.leaves| + |left.leaves|));
    assert |all| == |Leaves(root, start)| && |multiset(found)| == |found|;
  }
}
