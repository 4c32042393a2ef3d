/** Reading several Firestore documents in one `:batchGet`, whose reply comes in any order. */
module FirestoreBatch {
  import opened FirestoreValue
  import opened Wrappers

  /** `root` is where this database's documents live; `section` is the key each is wrapped under. */
  datatype Database = Database(root: string, section: string)

  datatype Held = Held(path: string, document: Json)

  datatype BatchError =
    | NotAList | HoldsNothing(path: string) | Neither | Unnamed
    | NotAsked(path: string) | Twice(path: string) | NoFields(path: string) | Unanswered(path: string)

  // ---- Names

  function NameOf(database: Database, path: string): (r: string) {
    database.root + "/" + path
  }

  function PathOf(database: Database, name: string): (r: string) {
    var root := database.root + "/";
    if root <= name then name[|root|..] else name
  }

  /**
   Which names are taken for a path that was asked for: its own full name, and also the bare path
   itself, unless that begins like a full name.
   */
  lemma PathOfIff(database: Database, path: string, name: string)
    ensures PathOf(database, NameOf(database, path)) == path
    ensures PathOf(database, name) == path <==>
            name == NameOf(database, path) || (name == path && !(database.root + "/" <= name))
  {
    var root := database.root + "/";
    assert NameOf(database, path) == root + path && (root + path)[|root|..] == path;
    if root <= name {
      assert name == root + name[|root|..];
    }
    assert root <= NameOf(database, path);
  }

  // ---- One entry of a reply

  function Get(json: Json, key: string): (r: Option<Json>)
    ensures r.Some? ==> json.Obj? && Member(key, r.value) in json.members
    ensures r.None? && json.Obj? ==> forall k :: 0 <= k < |json.members| ==> json.members[k].key != key
  {
    if !json.Obj? then None
    else
      var at := Index(json.members, key);
      if at < |json.members| then Some(json.members[at].value) else None
  }

  function GetText(json: Json, key: string): (r: Option<string>) {
    match Get(json, key)
    case Some(Str(s)) => Some(s)
    case _ => None
  }

  /** `section_of`: a document's fields, decoded, under the section key. */
  function SectionOf(database: Database, body: Json): (r: Option<Json>) {
    match Get(body, "fields")
    case Some(fields) => Some(Obj([Member(database.section, ToJson(fields))]))
    case None => None
  }

  /** What an entry says: a document and its path, when it says one. */
  function Says(database: Database, entry: Json): (r: Option<Held>) {
    if GetText(entry, "missing").Some? then None
    else
      match Get(entry, "found")
      case None => None
      case Some(found) =>
        match GetText(found, "name")
        case None => None
        case Some(name) =>
          match SectionOf(database, found)
          case None => None
          case Some(document) => Some(Held(PathOf(database, name), document))
  }

  /** Why an entry is refused: what is wrong with it, and the document it is about where it names one. */
  predicate Explains(database: Database, paths: seq<string>, held: seq<Held>, entry: Json, error: BatchError) {
    match error
    case HoldsNothing(path) =>
      GetText(entry, "missing").Some? && PathOf(database, GetText(entry, "missing").value) == path
    case Neither => Get(entry, "found").None? && GetText(entry, "missing").None?
    case Unnamed => Get(entry, "found").Some? && GetText(Get(entry, "found").value, "name").None?
    case NotAsked(path) => path !in paths && IsAbout(database, entry, path)
    case Twice(path) =>
      path in paths && IsAbout(database, entry, path) && exists k :: 0 <= k < |held| && held[k].path == path
    case NoFields(path) =>
      path in paths && IsAbout(database, entry, path) && Get(Get(entry, "found").value, "fields").None?
    case _ => false
  }

  /** A found entry that names the document. */
  predicate IsAbout(database: Database, entry: Json, path: string) {
    && Get(entry, "found").Some? && GetText(Get(entry, "found").value, "name").Some?
    && PathOf(database, GetText(Get(entry, "found").value, "name").value) == path
  }

  // ---- A whole reply

  /** Exactly the documents asked for, each of them once, and nothing else. */
  ghost predicate Answers(database: Database, paths: seq<string>, entries: seq<Json>) {
    && (forall i :: 0 <= i < |entries| ==>
          Says(database, entries[i]).Some? && Says(database, entries[i]).value.path in paths)
    && (forall i, j :: 0 <= i < j < |entries| ==>
          Says(database, entries[i]).value.path != Says(database, entries[j]).value.path)
    && (forall path :: path in paths ==> Answered(database, entries, path))
  }

  ghost predicate Answered(database: Database, entries: seq<Json>, path: string) {
    exists i :: 0 <= i < |entries| && Says(database, entries[i]).Some? && Says(database, entries[i]).value.path == path
  }

  /** The paths in the order they were asked for, each with the document the reply holds for it. */
  ghost predicate InCallOrder(database: Database, paths: seq<string>, entries: seq<Json>, documents: seq<Held>) {
    && |documents| == |paths|
    && forall i :: 0 <= i < |paths| ==> documents[i].path == paths[i] && IsSaid(database, entries, documents[i])
  }

  ghost predicate IsSaid(database: Database, entries: seq<Json>, held: Held) {
    exists k :: 0 <= k < |entries| && Says(database, entries[k]) == Some(held)
  }

  /** The entries taken so far, as they were said. */
  ghost predicate Taken(database: Database, paths: seq<string>, entries: seq<Json>, held: seq<Held>) {
    && |held| <= |entries|
    && (forall k :: 0 <= k < |held| ==> Says(database, entries[k]) == Some(held[k]) && held[k].path in paths)
    && (forall j, k :: 0 <= j < k < |held| ==> held[j].path != held[k].path)
  }

  function Find(held: seq<Held>, path: string): (r: nat)
    ensures r <= |held|
    ensures r < |held| ==> held[r].path == path
    ensures forall k :: 0 <= k < r ==> held[k].path != path
  {
    if held == [] || held[0].path == path then 0 else 1 + Find(held[1..], path)
  }

  /**
   `batch`, from the reply on: it succeeds exactly when the reply answers for every document asked
   for, once, and for nothing else; the documents are then in the order they were asked for.
   */
  method Batch(database: Database, paths: seq<string>, reply: Json) returns (result: Result<seq<Held>, BatchError>)
    ensures result.Ok? <==> reply.Arr? && Answers(database, paths, reply.items)
    ensures result.Ok? ==> InCallOrder(database, paths, reply.items, result.value)
  {
    if !reply.Arr? {
      return Err(NotAList);
    }
    var held: seq<Held> := [];
    var i := 0;
    while i < |reply.items|
      invariant 0 <= i <= |reply.items| && |held| == i
      invariant Taken(database, paths, reply.items, held)
    {
      var taken := Take(database, paths, held, reply.items[i]);
      match taken {
        case Err(error) =>
          return Err(error);
        case Ok(one) =>
          held := held + [one];
      }
      i := i + 1;
    }
    result := Reorder(database, paths, reply.items, held);
  }

  /** One entry: what it says, or why the batch is refused for it. */
  method Take(database: Database, paths: seq<string>, held: seq<Held>, entry: Json)
    returns (taken: Result<Held, BatchError>)
    ensures taken.Ok? <==>
            var said := Says(database, entry);
            said.Some? && said.value.path in paths && forall k :: 0 <= k < |held| ==> held[k].path != said.value.path
    ensures taken.Ok? ==> Says(database, entry) == Some(taken.value)
    ensures taken.Err? ==> Explains(database, paths, held, entry, taken.error)
  {
    var missing := GetText(entry, "missing");
    if missing.Some? {
      return Err(HoldsNothing(PathOf(database, missing.value)));
    }
    var found := Get(entry, "found");
    if found.None? {
      return Err(Neither);
    }
    var name := GetText(found.value, "name");
    if name.None? {
      return Err(Unnamed);
    }
    var path := PathOf(database, name.value);
    if path !in paths {
      return Err(NotAsked(path));
    }
    if Find(held, path) < |held| {
      return Err(Twice(path));
    }
    var document := SectionOf(database, found.value);
    if document.None? {
      return Err(NoFields(path));
    }
    taken := Ok(Held(path, document.value));
  }

  /** Back into the order of the call. */
  method Reorder(database: Database, paths: seq<string>, ghost entries: seq<Json>, held: seq<Held>)
    returns (result: Result<seq<Held>, BatchError>)
    requires Taken(database, paths, entries, held) && |held| == |entries|
    ensures result.Ok? <==> Answers(database, paths, entries)
    ensures result.Ok? ==> InCallOrder(database, paths, entries, result.value)
  {
    var documents: seq<Held> := [];
    var i := 0;
    while i < |paths|
      invariant 0 <= i <= |paths|
      invariant InCallOrder(database, paths[..i], entries, documents)
    {
      var at := Find(held, paths[i]);
      if at == |held| {
        assert !Answered(database, entries, paths[i]);
        return Err(Unanswered(paths[i]));
      }
      assert IsSaid(database, entries, held[at]);
      documents := documents + [held[at]];
      i := i + 1;
    }
    AllAnswered(database, paths, entries, documents);
    result := Ok(documents);
  }

  lemma AllAnswered(database: Database, paths: seq<string>, entries: seq<Json>, documents: seq<Held>)
    requires InCallOrder(database, paths, entries, documents)
    ensures forall path :: path in paths ==> Answered(database, entries, path)
  {
    forall path | path in paths
      ensures Answered(database, entries, path)
    {
      var i :| 0 <= i < |paths| && paths[i] == path;
      assert IsSaid(database, entries, documents[i]);
    }
  }

  // ---- The order of the reply

  lemma {:induction false} CountedTwice(entries: seq<Json>, x: Json) returns (i: nat, j: nat)
    requires multiset(entries)[x] >= 2
    ensures i < j < |entries| && entries[i] == x == entries[j]
  {
    assert entries == entries[..|entries| - 1] + [entries[|entries| - 1]];
    if entries[|entries| - 1] == x {
      assert x in multiset(entries[..|entries| - 1]);
      i :| 0 <= i < |entries| - 1 && entries[i] == x;
      j := |entries| - 1;
    } else {
      i, j := CountedTwice(entries[..|entries| - 1], x);
    }
  }

  /** Two places in one order are two places in another. */
  lemma TwoPlaces(a: seq<Json>, b: seq<Json>, i: nat, j: nat) returns (k: nat, l: nat)
    requires multiset(a) == multiset(b) && i < j < |b|
    ensures k < |a| && l < |a| && k != l && a[k] == b[i] && a[l] == b[j]
  {
    if b[i] == b[j] {
      assert b == (b[..i] + [b[i]]) + (b[i + 1..j] + [b[j]] + b[j + 1..]);
      assert multiset(b)[b[i]] >= 2;
      k, l := CountedTwice(a, b[i]);
    } else {
      assert b[i] in multiset(b) && b[j] in multiset(b);
      assert b[i] in multiset(a) && b[j] in multiset(a);
      k :| 0 <= k < |a| && a[k] == b[i];
      l :| 0 <= l < |a| && a[l] == b[j];
    }
  }

  lemma SameEntries(a: seq<Json>, b: seq<Json>, i: nat)
    requires multiset(a) == multiset(b) && i < |b|
    ensures b[i] in a
  {
    assert b[i] in multiset(b);
    assert b[i] in multiset(a);
  }

  lemma AnswersInAnyOrder(database: Database, paths: seq<string>, a: seq<Json>, b: seq<Json>)
    requires multiset(a) == multiset(b) && Answers(database, paths, a)
    ensures Answers(database, paths, b)
  {
    forall i | 0 <= i < |b|
      ensures Says(database, b[i]).Some? && Says(database, b[i]).value.path in paths
    {
      SameEntries(a, b, i);
    }
    forall i, j | 0 <= i < j < |b|
      ensures Says(database, b[i]).value.path != Says(database, b[j]).value.path
    {
      var k, l := TwoPlaces(a, b, i, j);
    }
    forall path | path in paths
      ensures Answered(database, b, path)
    {
      var i :| 0 <= i < |a| && Says(database, a[i]).Some? && Says(database, a[i]).value.path == path;
      SameEntries(b, a, i);
    }
  }

  /**
   The order a service answers in decides nothing: of two replies that are the same entries in any
   order, both succeed or neither, and the documents, in call order, are the same.
   */
  lemma ReplyOrderDoesNotMatter(database: Database, paths: seq<string>, a: seq<Json>, b: seq<Json>,
                                first: seq<Held>, second: seq<Held>)
    requires multiset(a) == multiset(b)
    ensures Answers(database, paths, a) <==> Answers(database, paths, b)
    ensures (Answers(database, paths, a) && InCallOrder(database, paths, a, first)
             && InCallOrder(database, paths, b, second)) ==> first == second
  {
    if Answers(database, paths, a) { AnswersInAnyOrder(database, paths, a, b); }
    if Answers(database, paths, b) { AnswersInAnyOrder(database, paths, b, a); }
    if && Answers(database, paths, a)
       && InCallOrder(database, paths, a, first) && InCallOrder(database, paths, b, second) {
      forall i | 0 <= i < |paths|
        ensures first[i] == second[i]
      {
        assert IsSaid(database, a, first[i]) && IsSaid(database, b, second[i]);
        SaidOnce(database, paths, a, b, first[i], second[i]);
      }
    }
  }

  lemma SaidOnce(database: Database, paths: seq<string>, a: seq<Json>, b: seq<Json>, one: Held, other: Held)
    requires multiset(a) == multiset(b) && Answers(database, paths, a)
    requires IsSaid(database, a, one) && IsSaid(database, b, other) && one.path == other.path
    ensures one == other
  {
    var k :| 0 <= k < |a| && Says(database, a[k]) == Some(one);
    var l :| 0 <= l < |b| && Says(database, b[l]) == Some(other);
    SameEntries(a, b, l);
    var m :| 0 <= m < |a| && a[m] == b[l];
    assert m == k;
  }

  // ---- A service that stores documents

  /** Members that name each key once and in order hold one value under it. */
  predicate HasMember(json: Json, key: string, value: Json) {
    json.Obj? && exists i :: 0 <= i < |json.members| && json.members[i] == Member(key, value)
                             && forall k :: 0 <= k < i ==> json.members[k].key != key
  }

  predicate LacksMember(json: Json, key: string) {
    json.Obj? && forall k :: 0 <= k < |json.members| ==> json.members[k].key != key
  }

  lemma GetsMember(json: Json, key: string, value: Json)
    requires HasMember(json, key, value)
    ensures Get(json, key) == Some(value)
  {
    var i :| 0 <= i < |json.members| && json.members[i] == Member(key, value)
             && forall k :: 0 <= k < i ==> json.members[k].key != key;
    assert Index(json.members, key) == i;
  }

  /** An entry as the service writes it: the document at the path, under its full name, its fields tagged. */
  ghost predicate Reports(database: Database, entry: Json, path: string, members: seq<Member>) {
    LacksMember(entry, "missing") &&
    exists found, fields ::
      && HasMember(entry, "found", found) && HasMember(found, "fields", fields)
      && HasMember(found, "name", Str(database.root + "/" + path))
      && EncodesFields(members, fields)
  }

  /** What such an entry says is the document that is stored, under the section key. */
  lemma EntrySays(database: Database, entry: Json, path: string, members: seq<Member>)
    requires Valid(Obj(members)) && Reports(database, entry, path, members)
    ensures Says(database, entry) == Some(Held(path, Obj([Member(database.section, Obj(members))])))
  {
    var found, fields :|
      && HasMember(entry, "found", found) && HasMember(found, "fields", fields)
      && HasMember(found, "name", Str(database.root + "/" + path))
      && EncodesFields(members, fields);
    GetsMember(entry, "found", found);
    GetsMember(found, "fields", fields);
    GetsMember(found, "name", Str(database.root + "/" + path));
    PathOfIff(database, path, NameOf(database, path));
    ToJsonUndoes(members, fields);
  }

  /** Each entry reports the document of one path asked for, whichever order the service took them in. */
  ghost predicate ReportsAll(database: Database, stored: map<string, seq<Member>>, paths: seq<string>,
                             entries: seq<Json>, order: seq<string>) {
    && |order| == |entries|
    && (forall i, j :: 0 <= i < j < |order| ==> order[i] != order[j])
    && (forall path :: path in order <==> path in paths)
    && (forall path :: path in paths ==> path in stored && Valid(Obj(stored[path])))
    && (forall i :: 0 <= i < |entries| ==>
          order[i] in stored && Reports(database, entries[i], order[i], stored[order[i]]))
  }

  /** The document of a path, as the merge is given it. */
  function Sectioned(database: Database, members: seq<Member>): (r: Json) {
    Obj([Member(database.section, Obj(members))])
  }

  lemma EachSays(database: Database, stored: map<string, seq<Member>>, paths: seq<string>, entries: seq<Json>,
                 order: seq<string>)
    requires ReportsAll(database, stored, paths, entries, order)
    ensures forall i :: 0 <= i < |entries| ==>
              order[i] in stored
              && Says(database, entries[i]) == Some(Held(order[i], Sectioned(database, stored[order[i]])))
  {
    forall i | 0 <= i < |entries|
      ensures Says(database, entries[i]) == Some(Held(order[i], Sectioned(database, stored[order[i]])))
    {
      assert order[i] in order;
      EntrySays(database, entries[i], order[i], stored[order[i]]);
    }
  }

  /**
   From the store to the merge: whatever order the service answers in, a reply that reports every
   document asked for is accepted, and what comes of it is the stored documents, in the order they
   were asked for, each under the section key.
   */
  lemma StoredIsRead(database: Database, stored: map<string, seq<Member>>, paths: seq<string>, entries: seq<Json>,
                     order: seq<string>, documents: seq<Held>)
    requires ReportsAll(database, stored, paths, entries, order)
    ensures Answers(database, paths, entries)
    ensures InCallOrder(database, paths, entries, documents) ==>
              && |documents| == |paths|
              && forall i :: 0 <= i < |paths| ==>
                   paths[i] in stored
                   && documents[i] == Held(paths[i], Obj([Member(database.section, Obj(stored[paths[i]]))]))
  {
    EachSays(database, stored, paths, entries, order);
    forall i | 0 <= i < |entries| ensures order[i] in paths { assert order[i] in order; }
    forall path | path in paths ensures Answered(database, entries, path) {
      var i :| 0 <= i < |order| && order[i] == path;
      assert Says(database, entries[i]).value.path == path;
    }
    if InCallOrder(database, paths, entries, documents) {
      forall i | 0 <= i < |paths|
        ensures paths[i] in stored && documents[i] == Held(paths[i], Sectioned(database, stored[paths[i]]))
      {
        assert IsSaid(database, entries, documents[i]);
        var k :| 0 <= k < |entries| && Says(database, entries[k]) == Some(documents[i]);
        assert order[k] == paths[i];
      }
    }
  }
}
