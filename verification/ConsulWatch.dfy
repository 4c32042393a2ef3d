/**
 The Consul watch loop: a blocking query whose answer is the subtree at one index, with an index
 that resets when the agent's goes backwards, a first answer that only primes the comparison, and
 documents equal to the last one left undelivered.
 */
module ConsulWatch {
  import opened Documents
  import opened Runs
  import opened Wrappers

  datatype Keys = One(key: string) | Several(keys: seq<string>) | Prefix(prefix: string)

  /** What base64 and UTF-8 made of an entry's `Value`. */
  datatype Decoded = NoValue | NotBase64 | NotUtf8 | Decoded(text: string)

  datatype Entry = Entry(key: Option<string>, value: Decoded)

  /** A blocking query: it failed, or it answered, with `X-Consul-Index` if there was a usable one. */
  datatype Reply = QueryFailed | Answered(index: Option<nat>, entries: seq<Entry>)

  datatype Folded = Document(text: string) | NoDocument | Unfoldable

  datatype Delivery = Delivery(text: string, index: nat)

  datatype Ending = Running | AtDoor | NotFoldable | CallbackRefused

  datatype State = State(
    index: nat,
    last: Option<string>,
    priming: bool,
    delivered: seq<Delivery>,
    reports: nat,
    ending: Ending)

  datatype Config = Config(keys: Keys, formatKnown: bool, fold: Fold, accepts: nat -> bool)

  const FRESH := State(0, None, true, [], 0, Running)

  /** `trim_start_matches('/')`. */
  function TrimSlashes(s: string): (r: string) {
    if s != "" && s[0] == '/' then TrimSlashes(s[1..]) else s
  }

  predicate EndsWithSlash(s: string) {
    s != "" && s[|s| - 1] == '/'
  }

  function KeyOf(entry: Entry, expected: Option<string>): (r: string) {
    if entry.key.Some? then entry.key.value
    else if expected.Some? then expected.value
    else ""
  }

  /** What one entry adds: a pair, nothing for a folder under a prefix, or a refusal of the lot. */
  function PairOf(keys: Keys, entry: Entry, expected: Option<string>): (r: Option<seq<Pair>>) {
    var key := KeyOf(entry, expected);
    if keys.Prefix? && !UnderPrefix(key, TrimSlashes(keys.prefix)) then None
    else if keys.Prefix? && EndsWithSlash(key) then Some([])
    else if entry.value.Decoded? then Some([Pair(key, entry.value.text)])
    else None
  }

  function PairsFrom(keys: Keys, entries: seq<Entry>, expected: Option<string>): (r: Option<seq<Pair>>) {
    if entries == [] then
      Some([])
    else
      var before := PairsFrom(keys, entries[..|entries| - 1], expected);
      var one := PairOf(keys, entries[|entries| - 1], expected);
      if before.None? || one.None? then None else Some(before.value + one.value)
  }

  lemma {:induction false} RefusedStaysRefused(keys: Keys, entries: seq<Entry>, expected: Option<string>, i: nat)
    requires i <= |entries| && PairsFrom(keys, entries[..i], expected).None?
    ensures PairsFrom(keys, entries, expected).None?
  {
    if i == |entries| {
      assert entries[..i] == entries;
    } else {
      assert entries[..|entries| - 1][..i] == entries[..i];
      RefusedStaysRefused(keys, entries[..|entries| - 1], expected, i);
    }
  }

  /** `pairs_of`: every entry decodes, or the whole answer is refused. */
  method PairsOf(keys: Keys, entries: seq<Entry>, expected: Option<string>) returns (pairs: Option<seq<Pair>>)
    ensures pairs == if expected.Some? && entries == [] then None else PairsFrom(keys, entries, expected)
  {
    if expected.Some? && entries == [] {
      return None;
    }
    var held: seq<Pair> := [];
    var i := 0;
    while i < |entries|
      invariant 0 <= i <= |entries|
      invariant PairsFrom(keys, entries[..i], expected) == Some(held)
    {
      var entry := entries[i];
      assert entries[..i + 1][..i] == entries[..i];
      i := i + 1;
      var key := KeyOf(entry, expected);
      if keys.Prefix? {
        if !UnderPrefix(key, TrimSlashes(keys.prefix)) {
          RefusedStaysRefused(keys, entries, expected, i);
          return None;
        }
        if EndsWithSlash(key) {
          assert held + [] == held;
          continue;
        }
      }
      if !entry.value.Decoded? {
        RefusedStaysRefused(keys, entries, expected, i);
        return None;
      }
      held := held + [Pair(key, entry.value.text)];
    }
    assert entries[..i] == entries;
    pairs := Some(held);
  }

  /** The document an answer folds into. Under one key every failure is the deleted key's. */
  function WatchedDocument(config: Config, entries: seq<Entry>): (r: Folded) {
    match config.keys
    case One(key) =>
      (match PairsFrom(config.keys, entries, Some(key))
       case None => NoDocument
       case Some(pairs) => if pairs == [] then NoDocument else Document(pairs[|pairs| - 1].text))
    case _ =>
      if !WithinKeyBudget(|entries|) then
        Unfoldable
      else
        match PairsFrom(config.keys, entries, None)
        case None => Unfoldable
        case Some(pairs) =>
          if pairs == [] then
            NoDocument
          else
            match Merged(pairs, config.fold)
            case None => Unfoldable
            case Some(text) => Document(text)
  }

  method FoldAnswer(config: Config, entries: seq<Entry>) returns (folded: Folded)
    requires !config.keys.Several?
    ensures folded == WatchedDocument(config, entries)
  {
    if config.keys.One? {
      var single := PairsOf(config.keys, entries, Some(config.keys.key));
      if single.None? || single.value == [] {
        return NoDocument;
      }
      return Document(single.value[|single.value| - 1].text);
    }
    if !WithinKeyBudget(|entries|) {
      return Unfoldable;
    }
    var pairs := PairsOf(config.keys, entries, None);
    if pairs.None? {
      return Unfoldable;
    }
    if pairs.value == [] {
      return NoDocument;
    }
    var merged := Merged(pairs.value, config.fold);
    folded := if merged.None? then Unfoldable else Document(merged.value);
  }

  function Start(config: Config): (r: State) {
    if config.formatKnown && !config.keys.Several? then FRESH else FRESH.(ending := AtDoor)
  }

  /** The index the agent answered with: the header's, or the one that was asked for. */
  function AnsweredIndex(state: State, reply: Reply): (r: nat)
    requires reply.Answered?
  {
    if reply.index.Some? then reply.index.value else state.index
  }

  function Step(config: Config, state: State, reply: Reply): (r: State) {
    if !state.ending.Running? then
      state
    else if reply.QueryFailed? then
      state.(reports := state.reports + 1)
    else
      var answered := AnsweredIndex(state, reply);
      var indexed := state.(index := if answered < state.index then 0 else answered);
      match WatchedDocument(config, reply.entries)
      case Unfoldable => indexed.(reports := state.reports + 1, ending := NotFoldable)
      case NoDocument => indexed.(reports := state.reports + 1)
      case Document(text) =>
        var held := indexed.(last := Some(text), priming := false);
        if state.priming || state.last == Some(text) then held
        else held.(delivered := state.delivered + [Delivery(text, indexed.index)],
                   ending := if config.accepts(|state.delivered|) then Running else CallbackRefused)
  }

  predicate HasEnded(state: State) {
    !state.ending.Running?
  }

  function Run(config: Config, replies: seq<Reply>): (r: State) {
    if replies == [] then Start(config)
    else Step(config, Run(config, replies[..|replies| - 1]), replies[|replies| - 1])
  }

  /** The loop, reporting to a sink, for as long as `replies` and its own failures let it run. */
  method Watch(config: Config, replies: seq<Reply>) returns (state: State)
    ensures state == Run(config, replies)
  {
    assert replies[..0] == [];
    if !config.formatKnown || config.keys.Several? {
      EndedStaysEnded((some: seq<Reply>) => Run(config, some), HasEnded, replies, 0);
      return FRESH.(ending := AtDoor);
    }
    var index: nat, last: Option<string>, priming := 0, None, true;
    var delivered: seq<Delivery>, reports: nat := [], 0;
    var i := 0;
    while i < |replies|
      invariant 0 <= i <= |replies|
      invariant State(index, last, priming, delivered, reports, Running) == Run(config, replies[..i])
    {
      var reply := replies[i];
      assert replies[..i + 1][..i] == replies[..i];
      i := i + 1;
      if reply.QueryFailed? {
        reports := reports + 1;
        continue;
      }
      var answered := if reply.index.Some? then reply.index.value else index;
      index := if answered < index then 0 else answered;
      var folded := FoldAnswer(config, reply.entries);
      if folded.Unfoldable? {
        EndedStaysEnded((some: seq<Reply>) => Run(config, some), HasEnded, replies, i);
        return State(index, last, priming, delivered, reports + 1, NotFoldable);
      }
      if folded.NoDocument? {
        reports := reports + 1;
        continue;
      }
      var same := last == Some(folded.text);
      last := Some(folded.text);
      var primed := priming;
      priming := false;
      if primed || same {
        continue;
      }
      var accepted := config.accepts(|delivered|);
      delivered := delivered + [Delivery(folded.text, index)];
      if !accepted {
        EndedStaysEnded((some: seq<Reply>) => Run(config, some), HasEnded, replies, i);
        return State(index, last, priming, delivered, reports, CallbackRefused);
      }
    }
    assert replies[..i] == replies;
    state := State(index, last, priming, delivered, reports, Running);
  }
}
