/**
 The Redis watch loop: a keyspace notification wakes it, and the whole set is read back with one
 `MGET`.

 A run is the sequence of turns the loop takes; a turn holds what the subscription and the server
 answered in it. `Step` is what one turn does to the loop's variables, `Watch` is the loop.
 */
module RedisWatch {
  import opened Documents
  import opened Runs
  import opened Wrappers

  datatype Keys = One(key: string) | Several(keys: seq<string>) | Prefix(prefix: string)

  /** What `get_message` came back with; a payload that is not text reads as the empty event. */
  datatype Wake = TimedOut | BrokenSubscription | Woken(payload: Option<string>)

  datatype MgetReply = Values(values: seq<Option<string>>) | MgetFailed

  datatype Turn = Turn(
    wake: Wake,
    opens: bool,        // the answer to opening a connection, if one is needed
    reply: MgetReply,
    at: nat)            // how many commands the server had run when the `MGET` ran

  /** The round trips before the loop, and whether an earlier fetch left a connection behind. */
  datatype Opening = Opening(notifying: bool, subscribed: bool, connected: bool)

  datatype Ending = Running | AtDoor | StoreFailure | CallbackRefused

  datatype State = State(
    connected: bool,
    last: Option<string>,
    delivered: seq<string>,
    reports: nat,
    ending: Ending)

  datatype Config = Config(keys: Keys, formatKnown: bool, fold: Fold, accepts: nat -> bool)

  /** The keys a source names for itself; a prefix names none until it is scanned. */
  function Named(keys: Keys): (r: seq<string>)
    ensures keys.One? ==> r == [keys.key]
    ensures keys.Several? ==> r == keys.keys
    ensures keys.Prefix? ==> r == []
  {
    match keys
    case One(key) => [key]
    case Several(named) => named
    case Prefix(_) => []
  }

  /** Each key beside its value; one key holding nothing fails the whole read. */
  function Zipped(keys: seq<string>, values: seq<Option<string>>): (r: Option<seq<Pair>>) {
    if keys == [] || values == [] then
      Some([])
    else if values[0].None? || Zipped(keys[1..], values[1..]).None? then
      None
    else
      Some([Pair(keys[0], values[0].value)] + Zipped(keys[1..], values[1..]).value)
  }

  /** One read over a connection that is there: the document, if there is one. */
  function ReadBack(config: Config, reply: MgetReply): (r: Option<string>) {
    match reply
    case MgetFailed => None
    case Values(values) =>
      match Zipped(Named(config.keys), values)
      case None => None
      case Some(pairs) => Merged(pairs, config.fold)
  }

  /** `fetch`: a failure also drops the cached connection, so the next read opens a fresh one. */
  function Fetch(config: Config, connected: bool, turn: Turn): (r: (bool, Option<string>)) {
    if !connected && !turn.opens then
      (false, None)
    else
      var document := ReadBack(config, turn.reply);
      (document.Some?, document)
  }

  /** The two events that mean the key holds nothing. */
  predicate IsRemoval(event: string) {
    event == "del" || event == "expired"
  }

  /** Whether this turn reads the set back. */
  predicate Reads(turn: Turn) {
    turn.wake.Woken? && (turn.wake.payload.Some? ==> !IsRemoval(turn.wake.payload.value))
  }

  function Guarded(config: Config, state: State, document: string): (r: State) {
    state.(delivered := state.delivered + [document],
           ending := if config.accepts(|state.delivered|) then Running else CallbackRefused)
  }

  function Failing(state: State): (r: State) {
    state.(reports := state.reports + 1, ending := StoreFailure)
  }

  predicate Coalescing(config: Config) {
    |Named(config.keys)| > 1
  }

  function Start(config: Config, opening: Opening): (r: State) {
    var begun := State(opening.connected, None, [], 0, Running);
    if !config.formatKnown || Named(config.keys) == [] then begun.(ending := AtDoor)
    else if !opening.notifying || !opening.subscribed then Failing(begun)
    else begun
  }

  function Step(config: Config, state: State, turn: Turn): (r: State) {
    if !state.ending.Running? then
      state
    else if turn.wake.BrokenSubscription? then
      Failing(state)
    else if !Reads(turn) then
      state
    else
      var (connected, document) := Fetch(config, state.connected, turn);
      var after := state.(connected := connected);
      if document.None? then
        after.(reports := after.reports + 1)
      else if Coalescing(config) && state.last == document then
        after
      else
        Guarded(config, if Coalescing(config) then after.(last := document) else after, document.value)
  }

  predicate HasEnded(state: State) {
    !state.ending.Running?
  }

  function Run(config: Config, opening: Opening, turns: seq<Turn>): (r: State) {
    if turns == [] then
      Start(config, opening)
    else
      Step(config, Run(config, opening, turns[..|turns| - 1]), turns[|turns| - 1])
  }

  /** The loop, for as long as `turns` and its own failures let it run. */
  method Watch(config: Config, opening: Opening, turns: seq<Turn>) returns (state: State)
    ensures state == Run(config, opening, turns)
  {
    state := State(opening.connected, None, [], 0, Running);
    assert turns[..0] == [];
    if !config.formatKnown || Named(config.keys) == [] {
      state := state.(ending := AtDoor);
      EndedStaysEnded((some: seq<Turn>) => Run(config, opening, some), HasEnded, turns, 0);
      return;
    }
    if !opening.notifying || !opening.subscribed {
      state := Failing(state);
      EndedStaysEnded((some: seq<Turn>) => Run(config, opening, some), HasEnded, turns, 0);
      return;
    }
    var coalescing := |Named(config.keys)| > 1;
    var i := 0;
    while i < |turns|
      invariant 0 <= i <= |turns|
      invariant state.ending.Running?
      invariant state == Run(config, opening, turns[..i])
    {
      var turn := turns[i];
      assert turns[..i + 1][..i] == turns[..i];
      i := i + 1;
      match turn.wake {
        case TimedOut =>
          continue;
        case BrokenSubscription =>
          state := Failing(state);
          EndedStaysEnded((some: seq<Turn>) => Run(config, opening, some), HasEnded, turns, i);
          return;
        case Woken(payload) =>
          var event := if payload.Some? then payload.value else "";
          if event == "del" || event == "expired" {
            continue;
          }
      }
      var (connected, document) := Fetch(config, state.connected, turn);
      state := state.(connected := connected);
      if document.None? {
        state := state.(reports := state.reports + 1);
        continue;
      }
      if coalescing {
        if state.last == document {
          continue;
        }
        state := state.(last := document);
      }
      state := Guarded(config, state, document.value);
      if !state.ending.Running? {
        EndedStaysEnded((some: seq<Turn>) => Run(config, opening, some), HasEnded, turns, i);
        return;
      }
    }
    assert turns[..i] == turns;
  }
}
