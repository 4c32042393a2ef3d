/**
 What the etcd watch loop guarantees over every run against an honest cluster.

 Honest means: a message with header revision `h` carries every event on the watched range
 from where its stream stood up to and including `h`, and a message with no header carries no
 events; a stream resumed from a revision starts there; a range read at a revision answers with
 the range as that revision had it. Failures, expired tokens, cancellations, batching, progress
 notifications and when anything happens are the cluster's to choose.
 */
module EtcdGuarantees {
  import opened Documents
  import opened EtcdStore
  import opened EtcdWatch
  import opened Wrappers

  // ---- The server's half of a run

  /** Where the current stream stands: the first revision whose events it has not carried yet. */
  function Position(config: Config, opening: Opening, turns: seq<Turn>): (r: nat) {
    if turns == [] then
      opening.now
    else
      var before := turns[..|turns| - 1];
      var last := turns[|turns| - 1];
      match last.stream
      case Ended => Position(config, opening, before)
      case Received(message) =>
        if message.header.Some? then message.header.value + 1 else Position(config, opening, before)
      case Broken(_) =>
        match Run(config, opening, before).resumeFrom
        case Some(revision) => revision
        case None => last.now
  }

  /** Where the stream stood whose message was the first to carry a header. */
  function Baseline(config: Config, opening: Opening, turns: seq<Turn>): (r: nat) {
    if turns == [] || Run(config, opening, turns).resumeFrom.None? then
      Position(config, opening, turns)
    else
      var before := turns[..|turns| - 1];
      if Run(config, opening, before).resumeFrom.Some? then Baseline(config, opening, before)
      else Position(config, opening, before)
  }

  ghost predicate HonestRange(history: History, keys: Keys, reply: RangeReply, n: nat)
    requires n <= |history|
  {
    reply.Answered? && keys.Prefix? ==>
      var listing := Listing(StateAt(history, n), keys.prefix);
      reply.kvs == if |listing| <= MOST_KEYS + 1 then listing else listing[..MOST_KEYS + 1]
  }

  ghost predicate HonestMessage(history: History, keys: Keys, turn: Turn, position: nat) {
    turn.stream.Received? ==>
      var message := turn.stream.message;
      match message.header
      case None => message.canceled || message.events == []
      case Some(h) =>
        && position <= h + 1 <= |history|
        && (message.canceled || message.events == Events(history, keys, position, h + 1))
        && HonestRange(history, keys, turn.range, h + 1)
        && HonestRange(history, keys, turn.rangeAgain, h + 1)
  }

  ghost predicate HonestTurn(history: History, config: Config, opening: Opening, turns: seq<Turn>, i: nat)
    requires i < |turns|
  {
    && Run(config, opening, turns[..i]).ending.Running?
    && turns[i].now <= |history|
    && HonestMessage(history, config.keys, turns[i], Position(config, opening, turns[..i]))
  }

  /** Every turn was one the loop really took, and the cluster was honest in it. */
  ghost predicate HonestRun(history: History, config: Config, opening: Opening, turns: seq<Turn>) {
    opening.now <= |history| && forall i :: 0 <= i < |turns| ==> HonestTurn(history, config, opening, turns, i)
  }

  lemma HonestPrefix(history: History, config: Config, opening: Opening, turns: seq<Turn>)
    requires HonestRun(history, config, opening, turns) && turns != []
    ensures HonestRun(history, config, opening, turns[..|turns| - 1])
    ensures Run(config, opening, turns[..|turns| - 1]).ending.Running?
    ensures HonestMessage(history, config.keys, turns[|turns| - 1],
                          Position(config, opening, turns[..|turns| - 1]))
    ensures turns[|turns| - 1].now <= |history|
  {
    var before := turns[..|turns| - 1];
    assert HonestTurn(history, config, opening, turns, |turns| - 1);
    forall i | 0 <= i < |before| ensures HonestTurn(history, config, opening, before, i) {
      assert HonestTurn(history, config, opening, turns, i);
      assert before[..i] == turns[..i];
    }
  }

  // ---- Where the loop stands

  /** The loop's cursor and the server's agree from the first header on. */
  ghost predicate InStep(history: History, config: Config, opening: Opening, turns: seq<Turn>) {
    var resumeFrom := Run(config, opening, turns).resumeFrom;
    && Baseline(config, opening, turns) <= Position(config, opening, turns) <= |history|
    && (resumeFrom.Some? ==> Position(config, opening, turns) == resumeFrom.value)
    && (resumeFrom.None? ==> Baseline(config, opening, turns) == Position(config, opening, turns))
  }

  lemma {:induction false} HandEventsFrame(config: Config, state: State, events: seq<Event>)
    ensures HandEvents(config, state, events).resumeFrom == state.resumeFrom
    decreases |events|
  {
    if events != [] && state.ending.Running? {
      HandEventsFrame(config, state, events[1..]);
      if events[0].put && events[0].kv.Some? {
        var delivery := Delivery(events[0].kv.value.value, events[0].kv.value.modRevision);
        HandEventsFrame(config, Guarded(config, state, delivery), events[1..]);
      }
    }
  }

  lemma StepResume(config: Config, state: State, turn: Turn)
    requires state.ending.Running?
    ensures Step(config, state, turn).resumeFrom ==
            if turn.stream.Received? && turn.stream.message.header.Some?
            then Some(turn.stream.message.header.value + 1) else state.resumeFrom
  {
    if turn.stream.Received? {
      HandEventsFrame(config, Heard(state, turn.stream.message), turn.stream.message.events);
    }
  }

  lemma {:induction false} StaysInStep(history: History, config: Config, opening: Opening, turns: seq<Turn>)
    requires HonestRun(history, config, opening, turns)
    requires Run(config, opening, turns).ending.Running?
    ensures InStep(history, config, opening, turns)
  {
    if turns != [] {
      var before := turns[..|turns| - 1];
      HonestPrefix(history, config, opening, turns);
      StaysInStep(history, config, opening, before);
      StepResume(config, Run(config, opening, before), turns[|turns| - 1]);
    }
  }

  // ---- One key: exactly once

  /** The puts among `events`, as the documents they are. */
  function Puts(events: seq<Event>): (r: seq<Delivery>) {
    if events == [] then
      []
    else
      (if events[0].put && events[0].kv.Some?
       then [Delivery(events[0].kv.value.value, events[0].kv.value.modRevision)] else [])
      + Puts(events[1..])
  }

  lemma {:induction false} PutsAppend(a: seq<Event>, b: seq<Event>)
    ensures Puts(a + b) == Puts(a) + Puts(b)
  {
    if a == [] {
      assert a + b == b;
    } else {
      assert (a + b)[0] == a[0] && (a + b)[1..] == a[1..] + b;
      PutsAppend(a[1..], b);
    }
  }

  /** A batch is handed over in order, from the front, with nothing skipped or repeated. */
  lemma {:induction false} HandsInOrder(config: Config, state: State, events: seq<Event>)
    requires state.ending.Running?
    ensures var r := HandEvents(config, state, events);
            && state.delivered <= r.delivered <= state.delivered + Puts(events)
            && (r.ending.Running? ==> r.delivered == state.delivered + Puts(events))
            && !r.ending.AtDoor?
            && r.reports == state.reports + (if r.ending.StoreFailure? then 1 else 0)
    decreases |events|
  {
    if events != [] {
      if !events[0].put || events[0].kv.None? {
        HandsInOrder(config, state, events[1..]);
      } else if events[0].kv.value.value.Text? {
        var delivery := Delivery(events[0].kv.value.value, events[0].kv.value.modRevision);
        var next := Guarded(config, state, delivery);
        assert state.delivered + Puts(events) == next.delivered + Puts(events[1..]);
        assert state.delivered <= next.delivered;
        if next.ending.Running? { HandsInOrder(config, next, events[1..]); }
      }
    }
  }

  /** Every put of the watched key the run is answerable for. */
  function Owed(history: History, config: Config, opening: Opening, turns: seq<Turn>): (r: seq<Delivery>)
    requires Position(config, opening, turns) <= |history|
  {
    Puts(Events(history, config.keys, Baseline(config, opening, turns), Position(config, opening, turns)))
  }

  /** Whether the last turn brought a batch the loop went on to handle. */
  predicate Batched(turns: seq<Turn>) {
    turns != [] && turns[|turns| - 1].stream.Received? && !turns[|turns| - 1].stream.message.canceled
  }

  /**
   Exactly once: across any number of recoveries, what the callback was handed is every put of
   the key from the first header on, in revision order, none lost and none repeated. A run that
   ended inside a batch handed over a prefix of that, and one that ended on the stream handed
   over everything up to where the stream stood.
   */
  lemma {:induction false} ExactlyOnce(history: History, config: Config, opening: Opening, turns: seq<Turn>)
    requires config.keys.One?
    requires HonestRun(history, config, opening, turns)
    ensures Position(config, opening, turns) <= |history|
    ensures Run(config, opening, turns).delivered <= Owed(history, config, opening, turns)
    ensures Run(config, opening, turns).ending.Running? ==>
              Run(config, opening, turns).delivered == Owed(history, config, opening, turns)
    ensures turns != [] && !Batched(turns) ==>
              && Position(config, opening, turns[..|turns| - 1]) <= |history|
              && Run(config, opening, turns).delivered == Owed(history, config, opening, turns[..|turns| - 1])
  {
    if turns != [] {
      var before := turns[..|turns| - 1];
      var last := turns[|turns| - 1];
      HonestPrefix(history, config, opening, turns);
      ExactlyOnce(history, config, opening, before);
      StaysInStep(history, config, opening, before);
      var state := Run(config, opening, before);
      StepResume(config, state, last);
      if last.stream.Received? {
        ExtendsBy(history, config, opening, turns);
        if Batched(turns) {
          HandsInOrder(config, Heard(state, last.stream.message), last.stream.message.events);
        }
      }
    }
  }

  /** A received message moves the position forward and the baseline not at all. */
  lemma MessageAdvances(history: History, config: Config, opening: Opening, turns: seq<Turn>)
    requires HonestRun(history, config, opening, turns) && turns != []
    requires turns[|turns| - 1].stream.Received?
    ensures var before := turns[..|turns| - 1];
            && Baseline(config, opening, turns) == Baseline(config, opening, before)
            && Baseline(config, opening, before) <= Position(config, opening, before)
            && Position(config, opening, before) <= Position(config, opening, turns) <= |history|
  {
    HonestPrefix(history, config, opening, turns);
    StaysInStep(history, config, opening, turns[..|turns| - 1]);
    StepResume(config, Run(config, opening, turns[..|turns| - 1]), turns[|turns| - 1]);
  }

  /** A received message extends what is owed by the puts of the revisions it covers. */
  lemma ExtendsBy(history: History, config: Config, opening: Opening, turns: seq<Turn>)
    requires HonestRun(history, config, opening, turns) && turns != []
    requires turns[|turns| - 1].stream.Received?
    ensures var before := turns[..|turns| - 1];
            var mid, hi := Position(config, opening, before), Position(config, opening, turns);
            && mid <= hi <= |history|
            && (Batched(turns) ==> Events(history, config.keys, mid, hi) == turns[|turns| - 1].stream.message.events)
            && Owed(history, config, opening, turns) ==
                 Owed(history, config, opening, before) + Puts(Events(history, config.keys, mid, hi))
  {
    var before := turns[..|turns| - 1];
    MessageAdvances(history, config, opening, turns);
    HonestPrefix(history, config, opening, turns);
    var lo := Baseline(config, opening, before);
    var mid := Position(config, opening, before);
    var hi := Position(config, opening, turns);
    EventsSplit(history, config.keys, lo, mid, hi);
    PutsAppend(Events(history, config.keys, lo, mid), Events(history, config.keys, mid, hi));
  }

  // ---- A prefix: the document held is the whole subtree

  /** A listing as the pairs a document is folded from, unless some value is not text. */
  function TextsOf(listing: seq<(string, Value)>): (r: Option<seq<Pair>>) {
    if listing == [] then
      Some([])
    else if listing[0].1.NotUtf8? || TextsOf(listing[1..]).None? then
      None
    else
      Some([Pair(listing[0].0, listing[0].1.text)] + TextsOf(listing[1..]).value)
  }

  /** The document the subtree folds into with the first `n` revisions applied, if it has one. */
  ghost function Document(history: History, config: Config, n: nat): (r: Option<string>)
    requires config.keys.Prefix? && n <= |history|
  {
    match TextsOf(Listing(StateAt(history, n), config.keys.prefix))
    case None => None
    case Some(pairs) => Merged(pairs, config.fold)
  }

  lemma {:induction false} PairsAreTexts(kvs: seq<(string, Value)>, prefix: string)
    ensures PairsOf(kvs, prefix).Some? ==> PairsOf(kvs, prefix) == TextsOf(kvs)
  {
    if kvs != [] && PairsOf(kvs, prefix).Some? {
      PairsAreTexts(kvs[1..], prefix);
    }
  }

  /** A re-read that decodes is the whole subtree: truncation cannot pass the budget. */
  lemma RereadIsWhole(history: History, config: Config, reply: RangeReply, n: nat)
    requires config.keys.Prefix? && n <= |history|
    requires HonestRange(history, config.keys, reply, n)
    requires RangeAt(reply, config.keys.prefix).Pairs?
    ensures var pairs := RangeAt(reply, config.keys.prefix).pairs;
            && TextsOf(Listing(StateAt(history, n), config.keys.prefix)) == Some(pairs)
            && Document(history, config, n) == Merged(pairs, config.fold)
            && (pairs == [] <==> Listing(StateAt(history, n), config.keys.prefix) == [])
  {
    PairsAreTexts(reply.kvs, config.keys.prefix);
  }

  /** The subtree's document by position, as a function of the position alone. */
  ghost function Subtrees(history: History, config: Config): (r: nat -> Option<string>)
    requires config.keys.Prefix?
  {
    (n: nat) => if n <= |history| then Document(history, config, n) else None
  }

  ghost predicate DeliversAt(documents: nat -> Option<string>, delivery: Delivery) {
    delivery.value.Text? && documents(delivery.revision + 1) == Some(delivery.value.text)
  }

  ghost predicate Tracks(documents: nat -> Option<string>, delivered: seq<Delivery>, here: nat) {
    && (forall i :: 0 <= i < |delivered| ==> delivered[i].revision < here && DeliversAt(documents, delivered[i]))
    && (forall i, j :: 0 <= i < j < |delivered| ==> delivered[i].revision < delivered[j].revision)
  }

  /** Something moved in `lo..here`, and something is left under the prefix. */
  ghost predicate Moved(history: History, config: Config, lo: nat, here: nat)
    requires config.keys.Prefix? && here <= |history|
  {
    Events(history, config.keys, lo, here) != [] && Under(StateAt(history, here), config.keys.prefix) != map[]
  }

  ghost predicate Current(documents: nat -> Option<string>, delivered: seq<Delivery>, here: nat) {
    delivered != [] && delivered[|delivered| - 1].value.Text?
    && documents(here) == Some(delivered[|delivered| - 1].value.text)
  }

  lemma SameSubtreeSameDocument(history: History, config: Config, a: nat, b: nat)
    requires config.keys.Prefix? && a <= b <= |history|
    requires Events(history, config.keys, a, b) == []
    ensures Under(StateAt(history, a), config.keys.prefix) == Under(StateAt(history, b), config.keys.prefix)
    ensures Document(history, config, a) == Document(history, config, b)
  {
    QuietPrefix(history, config.keys.prefix, a, b);
    assert Listing(StateAt(history, a), config.keys.prefix) == Listing(StateAt(history, b), config.keys.prefix);
  }

  /** How many recoveries in a row end this run of turns. */
  function Recovering(turns: seq<Turn>): (r: nat) {
    if turns == [] || turns[|turns| - 1].stream != Broken(true) then 0 else 1 + Recovering(turns[..|turns| - 1])
  }

  /** The two together, of a loop at position `here` answerable from `lo` on. */
  ghost predicate Following(history: History, config: Config, state: State, lo: nat, here: nat)
    requires config.keys.Prefix? && here <= |history|
  {
    && Tracks(Subtrees(history, config), state.delivered, here)
    && (state.ending.Running? && Moved(history, config, lo, here) ==>
          Current(Subtrees(history, config), state.delivered, here))
  }

  /**
   The prefix watch tracks the store: every delivery is the whole subtree as of the revision it
   carries, those revisions strictly increase, and after every handled message the document the
   caller holds is the subtree as of the last revision heard of, if anything moved and anything is
   left. No number of token recoveries disturbs this.
   */
  lemma {:induction false} PrefixTracksStore(history: History, config: Config, opening: Opening, turns: seq<Turn>)
    requires config.keys.Prefix?
    requires HonestRun(history, config, opening, turns)
    ensures Position(config, opening, turns) <= |history|
    ensures Following(history, config, Run(config, opening, turns),
                      Baseline(config, opening, turns), Position(config, opening, turns))
  {
    if turns != [] {
      HonestPrefix(history, config, opening, turns);
      PrefixTracksStore(history, config, opening, turns[..|turns| - 1]);
      if turns[|turns| - 1].stream.Received? {
        MessageTracksStore(history, config, opening, turns);
      } else {
        RecoveryTracksStore(history, config, opening, turns);
      }
    }
  }

  /** What a message does to the run, the loop's own part and the server's. */
  lemma MessageSteps(history: History, config: Config, opening: Opening, turns: seq<Turn>)
    requires turns != [] && turns[|turns| - 1].stream.Received?
    requires HonestRun(history, config, opening, turns)
    ensures var before, header := turns[..|turns| - 1], turns[|turns| - 1].stream.message.header;
            && Run(config, opening, turns) == Step(config, Run(config, opening, before), turns[|turns| - 1])
            && Baseline(config, opening, turns) == Baseline(config, opening, before)
            && Position(config, opening, turns) ==
                 (if header.Some? then header.value + 1 else Position(config, opening, before))
            && Baseline(config, opening, before) <= Position(config, opening, before)
            && Position(config, opening, before) <= Position(config, opening, turns) <= |history|
  {
    MessageAdvances(history, config, opening, turns);
  }

  lemma MessageTracksStore(history: History, config: Config, opening: Opening, turns: seq<Turn>)
    requires config.keys.Prefix? && turns != [] && turns[|turns| - 1].stream.Received?
    requires HonestRun(history, config, opening, turns)
    requires Position(config, opening, turns[..|turns| - 1]) <= |history|
    requires Following(history, config, Run(config, opening, turns[..|turns| - 1]),
                       Baseline(config, opening, turns[..|turns| - 1]), Position(config, opening, turns[..|turns| - 1]))
    ensures Position(config, opening, turns) <= |history|
    ensures Following(history, config, Run(config, opening, turns),
                      Baseline(config, opening, turns), Position(config, opening, turns))
  {
    var before := turns[..|turns| - 1];
    HonestPrefix(history, config, opening, turns);
    MessageSteps(history, config, opening, turns);
    var state := Run(config, opening, before);
    var lo, mid := Baseline(config, opening, before), Position(config, opening, before);
    MessageFollows(history, config, state, turns[|turns| - 1], lo, mid,
                   Run(config, opening, turns), Baseline(config, opening, turns), Position(config, opening, turns));
  }

  lemma MessageFollows(history: History, config: Config, state: State, turn: Turn, lo: nat, mid: nat,
                       r: State, newLo: nat, here: nat)
    requires config.keys.Prefix? && turn.stream.Received? && state.ending.Running?
    requires lo <= mid <= |history| && HonestMessage(history, config.keys, turn, mid)
    requires Following(history, config, state, lo, mid)
    requires r == Step(config, state, turn) && newLo == lo && here <= |history|
    requires here == if turn.stream.message.header.Some? then turn.stream.message.header.value + 1 else mid
    ensures Following(history, config, r, newLo, here)
  {
    MessageLeadsTo(config, state, turn);
    ReceivedFollows(history, config, state, turn, lo, mid, r);
  }

  /** What a message under a prefix does: only one with events and a header has the prefix read back. */
  ghost predicate LeadsTo(config: Config, state: State, turn: Turn, r: State)
    requires config.keys.Prefix? && turn.stream.Received?
  {
    var message, heard := turn.stream.message, Heard(state, turn.stream.message);
    && heard.delivered == state.delivered && heard.ending.Running?
    && (message.canceled ==> r.delivered == state.delivered && !r.ending.Running?)
    && (message.header.None? || message.events == [] ==> r.delivered == state.delivered)
    && (!message.canceled && message.header.Some? && message.events != [] ==>
          r == HandPrefix(config, heard, turn, message))
  }

  lemma MessageLeadsTo(config: Config, state: State, turn: Turn)
    requires config.keys.Prefix? && turn.stream.Received? && state.ending.Running?
    ensures LeadsTo(config, state, turn, Step(config, state, turn))
  {
  }

  lemma RecoveryTracksStore(history: History, config: Config, opening: Opening, turns: seq<Turn>)
    requires config.keys.Prefix? && turns != [] && !turns[|turns| - 1].stream.Received?
    requires HonestRun(history, config, opening, turns)
    requires Position(config, opening, turns[..|turns| - 1]) <= |history|
    requires Following(history, config, Run(config, opening, turns[..|turns| - 1]),
                       Baseline(config, opening, turns[..|turns| - 1]), Position(config, opening, turns[..|turns| - 1]))
    ensures Position(config, opening, turns) <= |history|
    ensures Following(history, config, Run(config, opening, turns),
                      Baseline(config, opening, turns), Position(config, opening, turns))
  {
    var before := turns[..|turns| - 1];
    var state := Run(config, opening, before);
    HonestPrefix(history, config, opening, turns);
    StaysInStep(history, config, opening, before);
    StepResume(config, state, turns[|turns| - 1]);
    if state.resumeFrom.None? { NoHeaderNoDelivery(history, config, opening, before); }
    RecoveryKeepsFollowing(history, config, state, Run(config, opening, turns),
                           Baseline(config, opening, before), Position(config, opening, before),
                           Baseline(config, opening, turns), Position(config, opening, turns));
  }

  /** A turn that brought no message leaves the loop where it was, or before the first header at nothing. */
  lemma RecoveryKeepsFollowing(history: History, config: Config, state: State, r: State,
                               lo: nat, here: nat, newLo: nat, newHere: nat)
    requires config.keys.Prefix? && here <= |history| && newHere <= |history| && state.ending.Running?
    requires Following(history, config, state, lo, here)
    requires r.delivered == state.delivered
    requires (newLo == lo && newHere == here) || (r.delivered == [] && newLo == newHere)
    ensures Following(history, config, r, newLo, newHere)
  {
  }

  /** Before the first header there is nothing to have delivered. */
  lemma {:induction false} NoHeaderNoDelivery(history: History, config: Config, opening: Opening, turns: seq<Turn>)
    requires config.keys.Prefix? && HonestRun(history, config, opening, turns)
    requires Run(config, opening, turns).resumeFrom.None?
    ensures Run(config, opening, turns).delivered == []
  {
    if turns != [] {
      HonestPrefix(history, config, opening, turns);
      StepResume(config, Run(config, opening, turns[..|turns| - 1]), turns[|turns| - 1]);
      NoHeaderNoDelivery(history, config, opening, turns[..|turns| - 1]);
    }
  }

  /** One received message keeps the loop following, be it a batch, a progress notification or a cancel. */
  lemma ReceivedFollows(history: History, config: Config, state: State, turn: Turn, lo: nat, mid: nat, r: State)
    requires config.keys.Prefix? && turn.stream.Received? && state.ending.Running?
    requires lo <= mid <= |history| && HonestMessage(history, config.keys, turn, mid)
    requires Following(history, config, state, lo, mid)
    requires LeadsTo(config, state, turn, r)
    ensures var header := turn.stream.message.header;
            Following(history, config, r, lo, if header.Some? then header.value + 1 else mid)
  {
    var message := turn.stream.message;
    if message.header.None? || message.canceled || message.events == [] {
      UneventfulFollows(history, config, state, message, lo, mid, r);
    } else {
      EventfulFollows(history, config, state, turn, lo, mid, r);
    }
  }

  /** A batch of events. */
  lemma EventfulFollows(history: History, config: Config, state: State, turn: Turn, lo: nat, mid: nat, r: State)
    requires config.keys.Prefix? && turn.stream.Received? && state.ending.Running?
    requires lo <= mid <= |history| && HonestMessage(history, config.keys, turn, mid)
    requires Following(history, config, state, lo, mid)
    requires LeadsTo(config, state, turn, r)
    requires var message := turn.stream.message; message.header.Some? && !message.canceled && message.events != []
    ensures Following(history, config, r, lo, turn.stream.message.header.value + 1)
  {
    var message := turn.stream.message;
    var heard := Heard(state, message);
    assert Following(history, config, heard, lo, mid) by {
      HeardFollows(history, config, state, heard, lo, mid);
    }
    RereadFollows(history, config, heard, turn, message, lo, mid, r);
  }

  /** A message that has nothing read back: without a header, a cancel, or without events. */
  lemma UneventfulFollows(history: History, config: Config, state: State, message: Message, lo: nat, mid: nat, r: State)
    requires config.keys.Prefix? && state.ending.Running? && lo <= mid <= |history|
    requires Following(history, config, state, lo, mid) && r.delivered == state.delivered
    requires message.header.Some? ==> mid <= message.header.value + 1 <= |history|
    requires message.header.None? || (message.canceled && !r.ending.Running?)
             || Events(history, config.keys, mid, message.header.value + 1) == []
    ensures Following(history, config, r, lo, if message.header.Some? then message.header.value + 1 else mid)
  {
    if message.header.None? {
      HeaderlessFollows(history, config, state, r, lo, mid);
    } else if message.canceled && !r.ending.Running? {
      CancelFollows(history, config, state, r, lo, mid, message.header.value + 1);
    } else {
      QuietFollows(history, config, state, r, lo, mid, message.header.value + 1);
    }
  }

  lemma HeardFollows(history: History, config: Config, state: State, heard: State, lo: nat, mid: nat)
    requires config.keys.Prefix? && mid <= |history| && state.ending.Running? && heard.ending.Running?
    requires Following(history, config, state, lo, mid) && heard.delivered == state.delivered
    ensures Following(history, config, heard, lo, mid)
  {
  }

  lemma RereadFollows(history: History, config: Config, heard: State, turn: Turn, message: Message, lo: nat, mid: nat,
                      r: State)
    requires config.keys.Prefix? && heard.ending.Running? && message.header.Some? && message.events != []
    requires lo <= mid <= message.header.value + 1 <= |history|
    requires message.events == Events(history, config.keys, mid, message.header.value + 1)
    requires HonestRange(history, config.keys, turn.range, message.header.value + 1)
    requires HonestRange(history, config.keys, turn.rangeAgain, message.header.value + 1)
    requires Following(history, config, heard, lo, mid) && r == HandPrefix(config, heard, turn, message)
    ensures Following(history, config, r, lo, message.header.value + 1)
  {
    NonEmptyAdvances(history, config.keys, mid, message.header.value + 1);
    RereadDelivers(history, config, heard, turn, message);
    BatchFollows(history, config, heard, r, lo, mid, message.header.value + 1);
  }

  lemma HeaderlessFollows(history: History, config: Config, state: State, r: State, lo: nat, here: nat)
    requires config.keys.Prefix? && here <= |history| && state.ending.Running?
    requires Following(history, config, state, lo, here)
    requires r.delivered == state.delivered
    ensures Following(history, config, r, lo, here)
  {
  }

  lemma CancelFollows(history: History, config: Config, state: State, r: State, lo: nat, mid: nat, here: nat)
    requires config.keys.Prefix? && mid <= here <= |history|
    requires Following(history, config, state, lo, mid)
    requires r.delivered == state.delivered && !r.ending.Running?
    ensures Following(history, config, r, lo, here)
  {
    DeliveryTracks(Subtrees(history, config), state.delivered, r.delivered, mid, here);
  }

  lemma QuietFollows(history: History, config: Config, state: State, r: State, lo: nat, mid: nat, here: nat)
    requires config.keys.Prefix? && lo <= mid <= here <= |history| && state.ending.Running?
    requires Following(history, config, state, lo, mid)
    requires Events(history, config.keys, mid, here) == []
    requires r.delivered == state.delivered
    ensures Following(history, config, r, lo, here)
  {
    EventsSplit(history, config.keys, lo, mid, here);
    SameSubtreeSameDocument(history, config, mid, here);
    DeliveryTracks(Subtrees(history, config), state.delivered, r.delivered, mid, here);
    assert Moved(history, config, lo, here) ==> Moved(history, config, lo, mid);
  }

  lemma BatchFollows(history: History, config: Config, heard: State, r: State, lo: nat, mid: nat, here: nat)
    requires config.keys.Prefix? && lo <= mid < here <= |history| && heard.ending.Running?
    requires Following(history, config, heard, lo, mid)
    requires Delivers(history, config, heard, r, here)
    ensures Following(history, config, r, lo, here)
  {
    DeliveryTracks(Subtrees(history, config), heard.delivered, r.delivered, mid, here);
  }

  lemma NonEmptyAdvances(history: History, keys: Keys, mid: nat, here: nat)
    requires here <= |history| && Events(history, keys, mid, here) != []
    ensures mid < here
  {
  }

  lemma DeliveryTracks(documents: nat -> Option<string>, before: seq<Delivery>, after: seq<Delivery>, mid: nat,
                       here: nat)
    requires mid <= here && Tracks(documents, before, mid)
    requires after == before ||
             (|after| == |before| + 1 && after[..|before|] == before
              && mid <= after[|before|].revision == here - 1 && DeliversAt(documents, after[|before|]))
    ensures Tracks(documents, after, here)
  {
    if after != before {
      assert forall i :: 0 <= i < |before| ==> after[i] == after[..|before|][i];
    }
  }

  /** `delivered` grew by the subtree at position `n`, or did not grow and nothing is left there. */
  ghost predicate Delivers(history: History, config: Config, heard: State, r: State, n: nat)
    requires config.keys.Prefix? && 0 < n <= |history|
  {
    if r.delivered == heard.delivered then
      r.ending.Running? ==> Under(StateAt(history, n), config.keys.prefix) == map[]
    else
      && |r.delivered| == |heard.delivered| + 1
      && r.delivered[..|heard.delivered|] == heard.delivered
      && r.delivered[|heard.delivered|].revision == n - 1
      && DeliversAt(Subtrees(history, config), r.delivered[|heard.delivered|])
  }

  lemma RangeDelivers(history: History, config: Config, state: State, reply: RangeReply, n: nat)
    requires config.keys.Prefix? && 0 < n <= |history| && state.ending.Running?
    requires HonestRange(history, config.keys, reply, n)
    ensures Delivers(history, config, state, HandRange(config, state, RangeAt(reply, config.keys.prefix), n - 1), n)
  {
    var result := RangeAt(reply, config.keys.prefix);
    if result.Pairs? {
      RereadIsWhole(history, config, reply, n);
      ListingIsSubtree(StateAt(history, n), config.keys.prefix);
      if result.pairs == [] {
        assert |Under(StateAt(history, n), config.keys.prefix)| == 0;
      }
    }
  }

  /** What one batch under a prefix adds: nothing, or the subtree at the batch's own revision. */
  lemma RereadDelivers(history: History, config: Config, heard: State, turn: Turn, message: Message)
    requires config.keys.Prefix? && message.events != [] && message.header.Some?
    requires message.header.value + 1 <= |history|
    requires HonestRange(history, config.keys, turn.range, message.header.value + 1)
    requires HonestRange(history, config.keys, turn.rangeAgain, message.header.value + 1)
    requires heard.ending.Running?
    ensures Delivers(history, config, heard, HandPrefix(config, heard, turn, message), message.header.value + 1)
  {
    var n := message.header.value + 1;
    RangeDelivers(history, config, heard, turn.range, n);
    RangeDelivers(history, config, heard.(refreshes := heard.refreshes + 1), turn.rangeAgain, n);
  }

  // ---- What ends a run, and what does not

  /** The batch's re-read was answered, at once or after the one refresh it may cost. */
  predicate Served(turn: Turn) {
    turn.range.Answered? || (turn.range.ReadExpired? && turn.refreshed && turn.rangeAgain.Answered?)
  }

  /** The subtree fits the budget, is all text, and is empty or folds. */
  ghost predicate Foldable(history: History, config: Config, n: nat)
    requires config.keys.Prefix? && n <= |history|
  {
    && |Under(StateAt(history, n), config.keys.prefix)| <= 512
    && TextsOf(Listing(StateAt(history, n), config.keys.prefix)).Some?
    && (Under(StateAt(history, n), config.keys.prefix) == map[] || Document(history, config, n).Some?)
  }

  lemma {:induction false} TextsArePairs(kvs: seq<(string, Value)>, prefix: string)
    requires forall i :: 0 <= i < |kvs| ==> UnderPrefix(kvs[i].0, prefix)
    ensures PairsOf(kvs, prefix) == TextsOf(kvs)
    ensures TextsOf(kvs).Some? ==> |TextsOf(kvs).value| == |kvs|
  {
    if kvs != [] { TextsArePairs(kvs[1..], prefix); }
  }

  lemma RangeReadsSubtree(history: History, config: Config, kvs: seq<(string, Value)>, n: nat)
    requires config.keys.Prefix? && n <= |history|
    requires HonestRange(history, config.keys, Answered(kvs), n)
    ensures var result := RangeAt(Answered(kvs), config.keys.prefix);
            && !result.RangeExpired?
            && (Foldable(history, config, n) <==>
                  result.Pairs? && (result.pairs == [] || Merged(result.pairs, config.fold).Some?))
            && (result.Pairs? ==> (result.pairs == [] <==> Under(StateAt(history, n), config.keys.prefix) == map[]))
  {
    var listing := Listing(StateAt(history, n), config.keys.prefix);
    ListingIsSubtree(StateAt(history, n), config.keys.prefix);
    TextsArePairs(listing, config.keys.prefix);
    if RangeAt(Answered(kvs), config.keys.prefix).Pairs? {
      RereadIsWhole(history, config, Answered(kvs), n);
    }
    assert Under(StateAt(history, n), config.keys.prefix) == map[] <==> |listing| == 0;
  }

  /**
   A batch under a prefix ends the watch exactly when its re-read was not served, the subtree does
   not fold, or the callback refuses; otherwise the document is delivered unless nothing is left.
   */
  lemma BatchGoesOnIff(history: History, config: Config, state: State, turn: Turn)
    requires config.keys.Prefix? && turn.stream.Received? && state.ending.Running?
    requires turn.stream.message.header.Some? && turn.stream.message.events != [] && !turn.stream.message.canceled
    requires turn.stream.message.header.value + 1 <= |history|
    requires HonestRange(history, config.keys, turn.range, turn.stream.message.header.value + 1)
    requires HonestRange(history, config.keys, turn.rangeAgain, turn.stream.message.header.value + 1)
    ensures var n := turn.stream.message.header.value + 1;
            var left := Under(StateAt(history, n), config.keys.prefix) != map[];
            var r := Step(config, state, turn);
            && (r.ending.Running? <==>
                  Served(turn) && Foldable(history, config, n) && (left ==> config.accepts(|state.delivered|)))
            && (r.ending.Running? ==> |r.delivered| == |state.delivered| + (if left then 1 else 0))
  {
    var n := turn.stream.message.header.value + 1;
    if turn.range.Answered? { RangeReadsSubtree(history, config, turn.range.kvs, n); }
    if turn.rangeAgain.Answered? { RangeReadsSubtree(history, config, turn.rangeAgain.kvs, n); }
  }

  /** Every one of `puts` is text, and the callback takes them all as its calls from number `call` on. */
  predicate Takes(config: Config, puts: seq<Delivery>, call: nat) {
    puts == [] || (puts[0].value.Text? && config.accepts(call) && Takes(config, puts[1..], call + 1))
  }

  /** A batch under one key ends the watch exactly when a put is not text or the callback refuses one. */
  lemma {:induction false} KeyGoesOnIff(config: Config, state: State, events: seq<Event>)
    requires state.ending.Running?
    ensures HandEvents(config, state, events).ending.Running? <==> Takes(config, Puts(events), |state.delivered|)
    decreases |events|
  {
    if events != [] {
      if !events[0].put || events[0].kv.None? {
        assert Puts(events) == Puts(events[1..]);
        KeyGoesOnIff(config, state, events[1..]);
      } else {
        var delivery := Delivery(events[0].kv.value.value, events[0].kv.value.modRevision);
        assert Puts(events) == [delivery] + Puts(events[1..]);
        var next := Guarded(config, state, delivery);
        if delivery.value.Text? && next.ending.Running? {
          KeyGoesOnIff(config, next, events[1..]);
        }
      }
    }
  }

  // ---- Bounds over whole runs, whatever the cluster answers

  predicate Taken(config: Config, opening: Opening, turns: seq<Turn>) {
    forall i :: 0 <= i < |turns| ==> Run(config, opening, turns[..i]).ending.Running?
  }

  lemma TakenPrefix(config: Config, opening: Opening, turns: seq<Turn>)
    requires Taken(config, opening, turns) && turns != []
    ensures Taken(config, opening, turns[..|turns| - 1])
    ensures Run(config, opening, turns[..|turns| - 1]).ending.Running?
  {
    var before := turns[..|turns| - 1];
    forall i | 0 <= i < |before| ensures Run(config, opening, before[..i]).ending.Running? {
      assert before[..i] == turns[..i];
    }
  }

  /** The loop's counters, `recovering` recoveries after its last message. */
  predicate Bounded(state: State, recovering: nat) {
    && state.refreshes <= 4 * state.messages + 4
    && state.reports == (if state.ending.StoreFailure? then 1 else 0)
    && (state.ending.Running? ==> state.tokenRecoveries == recovering <= 3)
    && (state.ending.Running? ==> state.refreshes <= 1 + 4 * state.messages + state.tokenRecoveries)
    && (state.ending.AtDoor? ==> state == FRESH.(ending := AtDoor))
  }

  lemma StepBounded(config: Config, state: State, turn: Turn, recovering: nat)
    requires state.ending.Running? && Bounded(state, recovering)
    ensures Bounded(Step(config, state, turn), if turn.stream == Broken(true) then recovering + 1 else 0)
  {
    if turn.stream.Received? {
      var heard := Heard(state, turn.stream.message);
      HandsInOrder(config, heard, turn.stream.message.events);
      HandEventsCounters(config, heard, turn.stream.message.events);
    }
  }

  /**
   However the cluster behaves: a run that is still going has recovered at most three times since
   the last message, `m` messages cost at most `4 * m + 4` token refreshes, and a store failure is
   reported exactly once while a recovery that works, a refusal at the door and a callback's
   refusal are never reported.
   */
  lemma {:induction false} RecoveryIsBounded(config: Config, opening: Opening, turns: seq<Turn>)
    requires Taken(config, opening, turns)
    ensures Bounded(Run(config, opening, turns), Recovering(turns))
  {
    if turns != [] {
      var before := turns[..|turns| - 1];
      TakenPrefix(config, opening, turns);
      RecoveryIsBounded(config, opening, before);
      StepBounded(config, Run(config, opening, before), turns[|turns| - 1], Recovering(before));
    }
  }

  lemma {:induction false} HandEventsCounters(config: Config, state: State, events: seq<Event>)
    ensures var r := HandEvents(config, state, events);
            r.refreshes == state.refreshes && r.messages == state.messages && r.tokenRecoveries == state.tokenRecoveries
    decreases |events|
  {
    if events != [] && state.ending.Running? {
      HandEventsCounters(config, state, events[1..]);
      if events[0].put && events[0].kv.Some? {
        var delivery := Delivery(events[0].kv.value.value, events[0].kv.value.modRevision);
        HandEventsCounters(config, Guarded(config, state, delivery), events[1..]);
      }
    }
  }

  /** A watch that may start at all, and one whose first stream came up, at once or after one refresh. */
  predicate IsWatchable(config: Config) {
    config.formatKnown && !config.keys.Several?
  }

  predicate Begins(opening: Opening) {
    opening.first.Established? || (opening.first.TokenExpired? && opening.refreshed && opening.second.Established?)
  }

  /**
   How a watch begins, as its caller can tell from any run: refused at the door exactly for want of
   a format or for a named list, and then nothing is asked of the cluster or reported, ever; failed
   with one report and nothing delivered when the first stream did not come up; and otherwise going.
   */
  lemma {:induction false} BeginsIff(config: Config, opening: Opening, turns: seq<Turn>)
    ensures var state := Run(config, opening, turns);
            && (state.ending.AtDoor? <==> !IsWatchable(config))
            && (!IsWatchable(config) ==> state == FRESH.(ending := AtDoor))
            && (IsWatchable(config) && !Begins(opening) ==>
                  && state.ending.StoreFailure? && state.reports == 1 && state.delivered == []
                  && state.refreshes == (if opening.first.TokenExpired? then 1 else 0))
            && (turns == [] ==> (state.ending.Running? <==> IsWatchable(config) && Begins(opening)))
  {
    if turns != [] {
      var before := Run(config, opening, turns[..|turns| - 1]);
      BeginsIff(config, opening, turns[..|turns| - 1]);
      if before.ending.Running? { NeverBackToTheDoor(config, before, turns[|turns| - 1]); }
    }
  }

  lemma NeverBackToTheDoor(config: Config, state: State, turn: Turn)
    requires state.ending.Running?
    ensures !Step(config, state, turn).ending.AtDoor?
  {
    if turn.stream.Received? {
      HandsInOrder(config, Heard(state, turn.stream.message), turn.stream.message.events);
    }
  }

  /** The loop gives a stream up only when it must: cured expiries go on until the cap, and nothing else does. */
  lemma GivesUpOnlyWhenItMust(config: Config, opening: Opening, turns: seq<Turn>)
    requires turns != [] && Taken(config, opening, turns)
    requires !turns[|turns| - 1].stream.Received?
    ensures Run(config, opening, turns).ending.Running? <==>
              && turns[|turns| - 1].stream == Broken(true)
              && turns[|turns| - 1].refreshed && turns[|turns| - 1].established
              && Recovering(turns) <= 3
    ensures Run(config, opening, turns).delivered == Run(config, opening, turns[..|turns| - 1]).delivered
    ensures Run(config, opening, turns).resumeFrom == Run(config, opening, turns[..|turns| - 1]).resumeFrom
  {
    TakenPrefix(config, opening, turns);
    RecoveryIsBounded(config, opening, turns[..|turns| - 1]);
  }

  // ---- What the callback decides

  /**
   The callback took every document but, if it ended the watch, the last, and its refusal ends the
   watch as nothing else does; nothing that is not text is ever handed to it.
   */
  predicate CallbackDecides(config: Config, state: State) {
    && (state.ending.CallbackRefused? <==> state.delivered != [] && !config.accepts(|state.delivered| - 1))
    && (forall i :: 0 <= i < |state.delivered| - 1 ==> config.accepts(i))
    && (forall i :: 0 <= i < |state.delivered| ==> state.delivered[i].value.Text?)
  }

  lemma {:induction false} HandedDecides(config: Config, state: State, events: seq<Event>)
    requires CallbackDecides(config, state)
    ensures CallbackDecides(config, HandEvents(config, state, events))
    decreases |events|
  {
    if events != [] && state.ending.Running? {
      if !events[0].put || events[0].kv.None? {
        HandedDecides(config, state, events[1..]);
      } else if events[0].kv.value.value.Text? {
        var delivery := Delivery(events[0].kv.value.value, events[0].kv.value.modRevision);
        HandedDecides(config, Guarded(config, state, delivery), events[1..]);
      }
    }
  }

  lemma StepDecides(config: Config, state: State, turn: Turn)
    requires state.ending.Running? && CallbackDecides(config, state)
    ensures CallbackDecides(config, Step(config, state, turn))
  {
    if turn.stream.Received? {
      HandedDecides(config, Heard(state, turn.stream.message), turn.stream.message.events);
    }
  }

  /**
   In every run: it ends as the callback's refusal exactly when the callback refused the last document
   it was handed; it had taken every one before; and every one was text.
   */
  lemma {:induction false} CallbackEndsIff(config: Config, opening: Opening, turns: seq<Turn>)
    ensures CallbackDecides(config, Run(config, opening, turns))
  {
    if turns != [] {
      var before := Run(config, opening, turns[..|turns| - 1]);
      CallbackEndsIff(config, opening, turns[..|turns| - 1]);
      if before.ending.Running? { StepDecides(config, before, turns[|turns| - 1]); }
    }
  }

  /** A stream that ends, breaks for good or is cancelled ends the watch as a store failure, reported once. */
  lemma StreamEndIsAFailure(config: Config, opening: Opening, turns: seq<Turn>)
    requires Taken(config, opening, turns) && turns != []
    requires var stream := turns[|turns| - 1].stream;
             stream in {Ended, Broken(false)} || (stream.Received? && stream.message.canceled)
    ensures var before, after := Run(config, opening, turns[..|turns| - 1]), Run(config, opening, turns);
            after.ending.StoreFailure? && after.reports == 1 && after.delivered == before.delivered
  {
    TakenPrefix(config, opening, turns);
    RecoveryIsBounded(config, opening, turns[..|turns| - 1]);
  }

  // ---- What is counted

  function Messages(turns: seq<Turn>): (r: nat) {
    if turns == [] then 0
    else Messages(turns[..|turns| - 1]) + (if turns[|turns| - 1].stream.Received? then 1 else 0)
  }

  /** Whether a turn asks for a fresh token: an expired stream under the cap, or a re-read refused for its token. */
  predicate AsksForToken(config: Config, turn: Turn, recovering: nat) {
    match turn.stream
    case Ended => false
    case Broken(expired) => expired && recovering < 3
    case Received(message) =>
      && config.keys.Prefix? && !message.canceled && message.events != [] && message.header.Some?
      && turn.range.ReadExpired?
  }

  function TokensAsked(config: Config, opening: Opening, turns: seq<Turn>): (r: nat) {
    if turns == [] then
      if IsWatchable(config) && opening.first.TokenExpired? then 1 else 0
    else
      var before, last := turns[..|turns| - 1], turns[|turns| - 1];
      TokensAsked(config, opening, before) + (if AsksForToken(config, last, Recovering(before)) then 1 else 0)
  }

  /** The refreshes and messages the bounds are about are exactly those that were asked for and came. */
  lemma {:induction false} CountsAddUp(config: Config, opening: Opening, turns: seq<Turn>)
    requires Taken(config, opening, turns)
    ensures Run(config, opening, turns).messages == Messages(turns)
    ensures Run(config, opening, turns).refreshes == TokensAsked(config, opening, turns)
  {
    if turns != [] {
      var before, last := turns[..|turns| - 1], turns[|turns| - 1];
      TakenPrefix(config, opening, turns);
      CountsAddUp(config, opening, before);
      RecoveryIsBounded(config, opening, before);
      if last.stream.Received? {
        var message := last.stream.message;
        HandEventsCounters(config, Heard(Run(config, opening, before), message), message.events);
      }
    }
  }

  // ---- What a re-read decodes to

  /**
   A range answer is used whole or refused whole: it is taken if and only if it holds at most 512 keys,
   every one of them begins with the prefix, and every value is text; then it is its keys and texts,
   in the store's order.
   */
  lemma {:induction false} RangeTakenIff(kvs: seq<(string, Value)>, prefix: string)
    ensures var result := RangeAt(Answered(kvs), prefix);
            && !result.RangeExpired?
            && (result.Pairs? <==>
                  |kvs| <= 512 && forall i :: 0 <= i < |kvs| ==> prefix <= kvs[i].0 && kvs[i].1.Text?)
            && (result.Pairs? ==>
                  && |result.pairs| == |kvs|
                  && forall i :: 0 <= i < |kvs| && kvs[i].1.Text? ==> result.pairs[i] == Pair(kvs[i].0, kvs[i].1.text))
  {
    PairsTakenIff(kvs, prefix);
  }

  lemma {:induction false} PairsTakenIff(kvs: seq<(string, Value)>, prefix: string)
    ensures var pairs := PairsOf(kvs, prefix);
            && (pairs.Some? <==> forall i :: 0 <= i < |kvs| ==> prefix <= kvs[i].0 && kvs[i].1.Text?)
            && (pairs.Some? ==>
                  && |pairs.value| == |kvs|
                  && forall i :: 0 <= i < |kvs| && kvs[i].1.Text? ==> pairs.value[i] == Pair(kvs[i].0, kvs[i].1.text))
  {
    if kvs != [] {
      PairsTakenIff(kvs[1..], prefix);
      assert forall i :: 0 < i < |kvs| ==> kvs[i] == kvs[1..][i - 1];
    }
  }
}
