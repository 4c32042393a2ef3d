/** The S3 poll: a `HEAD` each tick, and a `GET` when the ETag moved. */
module S3Watch {
  import opened Runs
  import opened Wrappers

  /** `etag()`: the object's tag, or a check that failed, a missing tag included. */
  datatype HeadReply = Tag(tag: string) | HeadFailed

  /** `read()`: the body, and the tag it was read at if the store said one. */
  datatype GetReply = Object(text: string, tag: Option<string>) | GetFailed

  datatype Turn = Turn(head: HeadReply, get: GetReply)

  datatype Ending = Running | AtDoor | CallbackRefused

  datatype State = State(seen: Option<string>, delivered: seq<string>, reports: nat, ending: Ending)

  /** `watchable` is a stated format and a single key. */
  datatype Config = Config(watchable: bool, accepts: nat -> bool)

  const FRESH := State(None, [], 0, Running)

  function Start(config: Config): (r: State) {
    if config.watchable then FRESH else FRESH.(ending := AtDoor)
  }

  function Failed(state: State): (r: State) {
    state.(reports := state.reports + 1)
  }

  function Step(config: Config, state: State, turn: Turn): (r: State) {
    if !state.ending.Running? then
      state
    else if turn.head.HeadFailed? then
      Failed(state)
    else if state.seen.None? then
      state.(seen := Some(turn.head.tag))
    else if state.seen == Some(turn.head.tag) then
      state
    else if turn.get.GetFailed? then
      Failed(state)
    else
      state.(seen := if turn.get.tag.Some? then turn.get.tag else Some(turn.head.tag),
             delivered := state.delivered + [turn.get.text],
             ending := if config.accepts(|state.delivered|) then Running else CallbackRefused)
  }

  predicate HasEnded(state: State) {
    !state.ending.Running?
  }

  function Run(config: Config, turns: seq<Turn>): (r: State) {
    if turns == [] then Start(config)
    else Step(config, Run(config, turns[..|turns| - 1]), turns[|turns| - 1])
  }

  /** The poll, one turn per tick, for as long as `turns` and the callback let it run. */
  method Watch(config: Config, turns: seq<Turn>) returns (state: State)
    ensures state == Run(config, turns)
  {
    assert turns[..0] == [];
    if !config.watchable {
      EndedStaysEnded((some: seq<Turn>) => Run(config, some), HasEnded, turns, 0);
      return FRESH.(ending := AtDoor);
    }
    var seen: Option<string>, delivered: seq<string>, reports: nat := None, [], 0;
    var i := 0;
    while i < |turns|
      invariant 0 <= i <= |turns|
      invariant State(seen, delivered, reports, Running) == Run(config, turns[..i])
    {
      var turn := turns[i];
      assert turns[..i + 1][..i] == turns[..i];
      i := i + 1;
      match turn.head {
        case HeadFailed =>
          reports := reports + 1;
        case Tag(tag) =>
          if seen.None? {
            seen := Some(tag);
          } else if seen != Some(tag) {
            match turn.get {
              case GetFailed =>
                reports := reports + 1;
              case Object(text, current) =>
                seen := if current.Some? then current else Some(tag);
                var accepted := config.accepts(|delivered|);
                delivered := delivered + [text];
                if !accepted {
                  EndedStaysEnded((some: seq<Turn>) => Run(config, some), HasEnded, turns, i);
                  return State(seen, delivered, reports, CallbackRefused);
                }
            }
          }
      }
    }
    assert turns[..i] == turns;
    state := State(seen, delivered, reports, Running);
  }
}
