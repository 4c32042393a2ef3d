/**
 An etcd cluster as its clients can see it: an append-only sequence of revisions.

 `history[r]` is what revision `r` changed. A position `n` stands between revisions, with
 everything below `n` already applied, so the store as of revision `r` is `StateAt(history, r + 1)`
 and a stream that resumes from `n` replays `history[n..]`.
 */
module EtcdStore {
  import opened Documents
  import opened Ordering
  import opened Wrappers

  datatype Value = Text(text: string) | NotUtf8

  datatype Change = Put(key: string, value: Value) | Delete(key: string)

  type History = seq<seq<Change>>

  datatype KeyValue = KeyValue(key: string, value: Value, modRevision: nat)

  /** One event on the wire; a deletion carries the key and no value worth reading. */
  datatype Event = Event(put: bool, kv: Option<KeyValue>)

  datatype Keys = One(key: string) | Several(keys: seq<string>) | Prefix(prefix: string)

  predicate Covers(keys: Keys, key: string) {
    match keys
    case One(watched) => key == watched
    case Several(named) => key in named
    case Prefix(prefix) => UnderPrefix(key, prefix)
  }

  function AppliedOne(state: map<string, Value>, change: Change): (r: map<string, Value>) {
    match change
    case Put(key, value) => state[key := value]
    case Delete(key) => state - {key}
  }

  function Applied(state: map<string, Value>, changes: seq<Change>): (r: map<string, Value>)
    decreases |changes|
  {
    if changes == [] then state else Applied(AppliedOne(state, changes[0]), changes[1..])
  }

  function StateAt(history: History, n: nat): (r: map<string, Value>)
    requires n <= |history|
  {
    if n == 0 then map[] else Applied(StateAt(history, n - 1), history[n - 1])
  }

  function Wire(change: Change, revision: nat): (r: Event) {
    match change
    case Put(key, value) => Event(true, Some(KeyValue(key, value, revision)))
    case Delete(key) => Event(false, Some(KeyValue(key, Text(""), revision)))
  }

  function EventsOf(changes: seq<Change>, keys: Keys, revision: nat): (r: seq<Event>) {
    if changes == [] then
      []
    else
      (if Covers(keys, changes[0].key) then [Wire(changes[0], revision)] else [])
      + EventsOf(changes[1..], keys, revision)
  }

  /** Every event a watch on `keys` owes its client for the revisions in `lo..hi`. */
  function Events(history: History, keys: Keys, lo: nat, hi: nat): (r: seq<Event>)
    requires hi <= |history|
    decreases hi
  {
    if hi <= lo then [] else Events(history, keys, lo, hi - 1) + EventsOf(history[hi - 1], keys, hi - 1)
  }

  lemma {:induction false} EventsSplit(history: History, keys: Keys, lo: nat, mid: nat, hi: nat)
    requires lo <= mid <= hi <= |history|
    ensures Events(history, keys, lo, hi) == Events(history, keys, lo, mid) + Events(history, keys, mid, hi)
  {
    if mid < hi {
      EventsSplit(history, keys, lo, mid, hi - 1);
    }
  }

  function Under(state: map<string, Value>, prefix: string): (r: map<string, Value>) {
    map key | key in state && UnderPrefix(key, prefix) :: state[key]
  }

  ghost function Lookups(names: seq<string>, state: map<string, Value>): (r: seq<(string, Value)>)
    requires forall name :: name in names ==> name in state
  {
    if names == [] then [] else [(names[0], state[names[0]])] + Lookups(names[1..], state)
  }

  lemma {:induction false} LookupsAt(names: seq<string>, state: map<string, Value>, i: nat)
    requires forall name :: name in names ==> name in state
    requires i < |names|
    ensures |Lookups(names, state)| == |names|
    ensures Lookups(names, state)[i] == (names[i], state[names[i]])
  {
    if |names| > 1 { LookupsAt(names[1..], state, if i == 0 then 0 else i - 1); }
  }

  /** The keys under `prefix` and their values, in key order: what one range read answers. */
  ghost function Listing(state: map<string, Value>, prefix: string): (r: seq<(string, Value)>) {
    AscendingListsSet(Under(state, prefix).Keys);
    Lookups(Ascending(Under(state, prefix).Keys), Under(state, prefix))
  }

  /** A listing is the map itself: every key under the prefix once, with its value, in order. */
  lemma ListingIsSubtree(state: map<string, Value>, prefix: string)
    ensures var listing := Listing(state, prefix);
            && |listing| == |Under(state, prefix)|
            && (forall i :: 0 <= i < |listing| ==>
                 listing[i].0 in Under(state, prefix) && listing[i].1 == Under(state, prefix)[listing[i].0])
            && (forall i, j :: 0 <= i < j < |listing| ==> Less(listing[i].0, listing[j].0))
  {
    var under := Under(state, prefix);
    var names := Ascending(under.Keys);
    AscendingListsSet(under.Keys);
    forall i | 0 <= i < |names|
      ensures |Lookups(names, under)| == |names|
      ensures Lookups(names, under)[i] == (names[i], under[names[i]]) && names[i] in names
    {
      LookupsAt(names, under, i);
    }
  }

  lemma {:induction false} QuietChanges(state: map<string, Value>, changes: seq<Change>, prefix: string, revision: nat)
    requires EventsOf(changes, Prefix(prefix), revision) == []
    ensures Under(state, prefix) == Under(Applied(state, changes), prefix)
    decreases |changes|
  {
    if changes != [] {
      assert !Covers(Prefix(prefix), changes[0].key);
      assert Under(state, prefix) == Under(AppliedOne(state, changes[0]), prefix);
      QuietChanges(AppliedOne(state, changes[0]), changes[1..], prefix, revision);
    }
  }

  /** No event under the prefix means nothing under the prefix moved. */
  lemma {:induction false} QuietPrefix(history: History, prefix: string, lo: nat, hi: nat)
    requires lo <= hi <= |history|
    requires Events(history, Prefix(prefix), lo, hi) == []
    ensures Under(StateAt(history, lo), prefix) == Under(StateAt(history, hi), prefix)
  {
    if lo < hi {
      QuietPrefix(history, prefix, lo, hi - 1);
      QuietChanges(StateAt(history, hi - 1), history[hi - 1], prefix, hi - 1);
      assert Under(StateAt(history, lo), prefix) == Under(StateAt(history, hi), prefix);
    }
  }
}
