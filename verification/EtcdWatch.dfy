/**
 The etcd watch loop: a resumable stream, token recovery, and a re-read of a prefix at the
 revision its events carried.

 A run is the sequence of turns the loop takes; a turn holds every answer the cluster could be
 asked for in it. `Step` is what one turn does to the loop's variables, `Watch` is the loop.
 */
module EtcdWatch {
  import opened Documents
  import opened EtcdStore
  import opened Runs
  import opened Wrappers

  const MOST_TOKEN_RECOVERIES: nat := 3

  datatype Message = Message(header: Option<nat>, events: seq<Event>, canceled: bool)

  /** `stream.message()`: a message, the end of the stream, or an error that may be an expired token. */
  datatype StreamReply = Received(message: Message) | Ended | Broken(expired: bool)

  /** `client.watch(..)`. */
  datatype WatchReply = Established | TokenExpired | WatchFailed

  /** `client.get(..)` of a range, before its answer is decoded. */
  datatype RangeReply = Answered(kvs: seq<(string, Value)>) | ReadExpired | ReadFailed

  datatype Turn = Turn(
    stream: StreamReply,
    refreshed: bool,        // the answer to a token refresh in this turn
    established: bool,      // the answer to `watch_once` after that refresh
    now: nat,               // where a stream asked for no start revision would begin
    range: RangeReply,
    rangeAgain: RangeReply)

  datatype Opening = Opening(first: WatchReply, refreshed: bool, second: WatchReply, now: nat)

  datatype Delivery = Delivery(value: Value, revision: nat)

  /** `AtDoor` is a refusal before anything was asked of the cluster. `Running` is a run cut short. */
  datatype Ending = Running | AtDoor | StoreFailure | CallbackRefused

  datatype State = State(
    resumeFrom: Option<nat>,
    tokenRecoveries: nat,
    messages: nat,
    refreshes: nat,
    reports: nat,
    delivered: seq<Delivery>,
    ending: Ending)

  /** `accepts(n)` is the callback's answer to its call number `n`: it may depend on anything before it. */
  datatype Config = Config(keys: Keys, formatKnown: bool, fold: Fold, accepts: nat -> bool)

  const FRESH := State(None, 0, 0, 0, 0, [], Running)

  /** `failing`: reported once, and handed back as the loop's error. */
  function Failing(state: State): (r: State) {
    state.(reports := state.reports + 1, ending := StoreFailure)
  }

  /** `guarded`: the callback is called, and its refusal ends the watch unreported. */
  function Guarded(config: Config, state: State, delivery: Delivery): (r: State) {
    state.(delivered := state.delivered + [delivery],
           ending := if config.accepts(|state.delivered|) then Running else CallbackRefused)
  }

  datatype RangeResult = Pairs(pairs: seq<Pair>) | RangeExpired | RangeRefused

  function PairsOf(kvs: seq<(string, Value)>, prefix: string): (r: Option<seq<Pair>>) {
    if kvs == [] then
      Some([])
    else if !UnderPrefix(kvs[0].0, prefix) || kvs[0].1.NotUtf8? then
      None
    else
      match PairsOf(kvs[1..], prefix)
      case None => None
      case Some(rest) => Some([Pair(kvs[0].0, kvs[0].1.text)] + rest)
  }

  function RangeAt(reply: RangeReply, prefix: string): (r: RangeResult) {
    match reply
    case ReadExpired => RangeExpired
    case ReadFailed => RangeRefused
    case Answered(kvs) =>
      if !WithinKeyBudget(|kvs|) then
        RangeRefused
      else
        match PairsOf(kvs, prefix)
        case None => RangeRefused
        case Some(pairs) => Pairs(pairs)
  }

  function Start(config: Config, opening: Opening): (r: State) {
    if !config.formatKnown || config.keys.Several? then
      FRESH.(ending := AtDoor)
    else
      match opening.first
      case Established => FRESH
      case WatchFailed => Failing(FRESH)
      case TokenExpired =>
        if opening.refreshed && opening.second.Established?
        then FRESH.(refreshes := 1)
        else Failing(FRESH.(refreshes := 1))
  }

  /** The stream broke on an expired token. */
  function Recovered(state: State, turn: Turn): (r: State) {
    var counted := state.(tokenRecoveries := state.tokenRecoveries + 1);
    if counted.tokenRecoveries > MOST_TOKEN_RECOVERIES then
      Failing(counted)
    else
      var refreshed := counted.(refreshes := counted.refreshes + 1);
      if turn.refreshed && turn.established then refreshed else Failing(refreshed)
  }

  /** A batch of events under a single key. */
  function HandEvents(config: Config, state: State, events: seq<Event>): (r: State)
    decreases |events|
  {
    if events == [] || !state.ending.Running? then
      state
    else if !events[0].put || events[0].kv.None? then
      HandEvents(config, state, events[1..])
    else if events[0].kv.value.value.NotUtf8? then
      Failing(state)
    else
      HandEvents(config,
                 Guarded(config, state, Delivery(events[0].kv.value.value, events[0].kv.value.modRevision)),
                 events[1..])
  }

  /** What the re-read at `revision` leads to, once its one retry is spent. */
  function HandRange(config: Config, state: State, result: RangeResult, revision: nat): (r: State) {
    match result
    case RangeExpired => Failing(state)
    case RangeRefused => Failing(state)
    case Pairs(pairs) =>
      if pairs == [] then
        state
      else
        match Merged(pairs, config.fold)
        case None => Failing(state)
        case Some(document) => Guarded(config, state, Delivery(Text(document), revision))
  }

  function HandPrefix(config: Config, state: State, turn: Turn, message: Message): (r: State)
    requires config.keys.Prefix?
  {
    if message.events == [] || message.header.None? then
      state
    else
      var first := RangeAt(turn.range, config.keys.prefix);
      if !first.RangeExpired? then
        HandRange(config, state, first, message.header.value)
      else
        var refreshed := state.(refreshes := state.refreshes + 1);
        if !turn.refreshed then
          Failing(refreshed)
        else
          HandRange(config, refreshed, RangeAt(turn.rangeAgain, config.keys.prefix), message.header.value)
  }

  function Heard(state: State, message: Message): (r: State) {
    state.(tokenRecoveries := 0,
           messages := state.messages + 1,
           resumeFrom := if message.header.Some? then Some(message.header.value + 1) else state.resumeFrom)
  }

  function Step(config: Config, state: State, turn: Turn): (r: State) {
    if !state.ending.Running? then
      state
    else
      match turn.stream
      case Ended => Failing(state)
      case Broken(expired) => if expired then Recovered(state, turn) else Failing(state)
      case Received(message) =>
        var heard := Heard(state, message);
        if message.canceled then Failing(heard)
        else if config.keys.Prefix? then HandPrefix(config, heard, turn, message)
        else HandEvents(config, heard, message.events)
  }

  predicate HasEnded(state: State) {
    !state.ending.Running?
  }

  function Run(config: Config, opening: Opening, turns: seq<Turn>): (r: State) {
    if turns == [] then
      Start(config, opening)
    else
      Step(config, Run(config, opening, turns[..|turns| - 1]), turns[|turns| - 1])
  }

  /** The loop itself: it never returns `Ok`, only an error or, cut short, nothing. */
  method Watch(config: Config, opening: Opening, turns: seq<Turn>) returns (state: State)
    ensures state == Run(config, opening, turns)
  {
    state := Establish(config, opening);
    assert turns[..0] == [];
    if !state.ending.Running? {
      EndedStaysEnded((some: seq<Turn>) => Run(config, opening, some), HasEnded, turns, 0);
      return;
    }
    var i := 0;
    while i < |turns|
      invariant 0 <= i <= |turns|
      invariant state.ending.Running?
      invariant state == Run(config, opening, turns[..i])
    {
      var turn := turns[i];
      assert turns[..i + 1][..i] == turns[..i];
      i := i + 1;
      ghost var before := state;
      match turn.stream {
        case Received(message) =>
          state := state.(tokenRecoveries := 0, messages := state.messages + 1);
          if message.header.Some? {
            state := state.(resumeFrom := Some(message.header.value + 1));
          }
          if message.canceled {
            state := Failing(state);
          } else if config.keys.Prefix? {
            state := Reread(config, state, turn, message);
          } else {
            state := Hand(config, state, message.events);
          }
        case Ended =>
          state := Failing(state);
        case Broken(expired) =>
          if expired {
            state := state.(tokenRecoveries := state.tokenRecoveries + 1);
            if state.tokenRecoveries > MOST_TOKEN_RECOVERIES {
              state := Failing(state);
            } else {
              state := state.(refreshes := state.refreshes + 1);
              if !turn.refreshed {
                state := Failing(state);
              } else if !turn.established {
                state := Failing(state);
              }
            }
          } else {
            state := Failing(state);
          }
      }
      assert state == Step(config, before, turn);
      if !state.ending.Running? {
        EndedStaysEnded((some: seq<Turn>) => Run(config, opening, some), HasEnded, turns, i);
        return;
      }
    }
    assert turns[..i] == turns;
  }

  method Establish(config: Config, opening: Opening) returns (state: State)
    ensures state == Start(config, opening)
  {
    state := FRESH;
    if !config.formatKnown {
      return state.(ending := AtDoor);
    }
    if config.keys.Several? {
      return state.(ending := AtDoor);
    }
    match opening.first {
      case TokenExpired =>
        state := state.(refreshes := 1);
        if !opening.refreshed {
          return Failing(state);
        }
        if !opening.second.Established? {
          return Failing(state);
        }
      case WatchFailed =>
        return Failing(state);
      case Established =>
    }
  }

  method Reread(config: Config, heard: State, turn: Turn, message: Message) returns (state: State)
    requires config.keys.Prefix?
    ensures state == HandPrefix(config, heard, turn, message)
  {
    state := heard;
    if message.events == [] {
      return;
    }
    if message.header.None? {
      return;
    }
    var result := RangeAt(turn.range, config.keys.prefix);
    if result.RangeExpired? {
      state := state.(refreshes := state.refreshes + 1);
      if !turn.refreshed {
        return Failing(state);
      }
      result := RangeAt(turn.rangeAgain, config.keys.prefix);
    }
    if !result.Pairs? {
      return Failing(state);
    }
    if result.pairs == [] {
      return;
    }
    var document := Merged(result.pairs, config.fold);
    if document.None? {
      return Failing(state);
    }
    state := Guarded(config, state, Delivery(Text(document.value), message.header.value));
  }

  method Hand(config: Config, heard: State, events: seq<Event>) returns (state: State)
    requires heard.ending.Running?
    ensures state == HandEvents(config, heard, events)
  {
    state := heard;
    var i := 0;
    while i < |events|
      invariant 0 <= i <= |events|
      invariant state.ending.Running?
      invariant HandEvents(config, heard, events) == HandEvents(config, state, events[i..])
    {
      var event := events[i];
      i := i + 1;
      if !event.put || event.kv.None? {
        continue;
      }
      if event.kv.value.value.NotUtf8? {
        return Failing(state);
      }
      state := Guarded(config, state, Delivery(event.kv.value.value, event.kv.value.modRevision));
      if !state.ending.Running? {
        return;
      }
    }
  }
}
