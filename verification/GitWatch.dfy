/**
 The git poll: ask where the ref is; when it has moved, fetch and deliver what the commit holds.
 Each fetch is tried once more with a fresh credential if the host refused the one it was given.
 */
module GitWatch {
  import opened Documents
  import opened GitCache
  import opened GitObjects
  import opened Runs
  import opened Wrappers

  /** The answers to one fetch, and to the second one should the first be refused. */
  datatype Try = Try(first: Turn, second: Turn)

  /** One tick: the check, and the read that follows when the ref has moved. */
  datatype Tick = Tick(check: Try, read: Try)

  datatype Ending = Running | CredentialRefused | CallbackRefused

  datatype Delivery = Delivery(commit: Id, text: string)

  /** `last` is the commit last read, for provenance; `seen` is the loop's own. */
  datatype State = State(disk: Disk, seen: Option<Id>, last: Option<Id>, delivered: seq<Delivery>, ending: Ending)

  /** `renewable` is a credential that comes from a closure. */
  datatype Source = Source(config: Config, renewable: bool, fold: Fold, accepts: nat -> bool)

  /** `attempt`. */
  function Attempt(u: Universe, source: Source, disk: Disk, answers: Try, want: bool): (r: Stage<Found>) {
    var first := Once(u, source.config, disk, answers.first, want);
    if first.result == Err(Refused) && source.renewable
    then Once(u, source.config, first.disk, answers.second, want)
    else first
  }

  predicate IsAuth(failure: Failure) {
    failure.Refused? || failure.auth
  }

  function Delivered(source: Source, state: State, found: Found): (r: State) {
    var read := state.(last := Some(found.commit));
    match Merged(found.documents, source.fold)
    case None => read
    case Some(text) =>
      read.(seen := Some(found.commit),
            delivered := state.delivered + [Delivery(found.commit, text)],
            ending := if source.accepts(|state.delivered|) then Running else CallbackRefused)
  }

  /** What a tick comes to, from what its check and, where the ref has moved, its read came to. */
  function Decide(source: Source, state: State, check: Stage<Found>, read: Stage<Found>): (r: State) {
    var now := state.(disk := check.disk);
    match check.result
    case Err(failure) => if IsAuth(failure) && !source.renewable then now.(ending := CredentialRefused) else now
    case Ok(current) =>
      if state.seen.None? then now.(seen := Some(current.commit))
      else if state.seen == Some(current.commit) then now
      else
        match read.result
        case Err(_) => now.(disk := read.disk)
        case Ok(found) => Delivered(source, now.(disk := read.disk), found)
  }

  function Check(u: Universe, source: Source, state: State, tick: Tick): (r: Stage<Found>) {
    Attempt(u, source, state.disk, tick.check, false)
  }

  function Read(u: Universe, source: Source, state: State, tick: Tick): (r: Stage<Found>) {
    Attempt(u, source, Check(u, source, state, tick).disk, tick.read, true)
  }

  function Step(u: Universe, source: Source, state: State, tick: Tick): (r: State) {
    if !state.ending.Running? then state
    else Decide(source, state, Check(u, source, state, tick), Read(u, source, state, tick))
  }

  function Start(disk: Disk): (r: State) {
    State(disk, None, None, [], Running)
  }

  predicate HasEnded(state: State) {
    !state.ending.Running?
  }

  function Run(u: Universe, source: Source, disk: Disk, ticks: seq<Tick>): (r: State) {
    if ticks == [] then Start(disk)
    else Step(u, source, Run(u, source, disk, ticks[..|ticks| - 1]), ticks[|ticks| - 1])
  }

  // ---- The loop

  method TryTwice(u: Universe, source: Source, directory: Directory, answers: Try, want: bool)
    returns (found: Result<Found, Failure>)
    modifies directory
    ensures Stage(directory.Contents(), found) == Attempt(u, source, old(directory.Contents()), answers, want)
  {
    found := directory.FetchOnce(u, source.config, answers.first, want);
    if found == Err(Refused) && source.renewable {
      found := directory.FetchOnce(u, source.config, answers.second, want);
    }
  }

  /** One tick of a watch still running. */
  method TakeTick(u: Universe, source: Source, directory: Directory, before: State, tick: Tick) returns (state: State)
    requires before.ending.Running? && before.disk == directory.Contents()
    modifies directory
    ensures state == Step(u, source, before, tick)
    ensures directory.Contents() == state.disk
  {
    var seen, last, delivered, ending := before.seen, before.last, before.delivered, before.ending;
    var check := TryTwice(u, source, directory, tick.check, false);
    match check {
      case Err(failure) =>
        if IsAuth(failure) && !source.renewable {
          ending := CredentialRefused;
        }
      case Ok(current) =>
        if seen.None? {
          seen := Some(current.commit);
        } else if seen != Some(current.commit) {
          var read := TryTwice(u, source, directory, tick.read, true);
          if read.Ok? {
            last := Some(read.value.commit);
            var document := Merged(read.value.documents, source.fold);
            if document.Some? {
              seen := Some(read.value.commit);
              if !source.accepts(|delivered|) {
                ending := CallbackRefused;
              }
              delivered := delivered + [Delivery(read.value.commit, document.value)];
            }
          }
        }
    }
    state := State(directory.Contents(), seen, last, delivered, ending);
  }

  /** `GitSource::watch`, one tick after another for as long as `ticks` and the endings let it run. */
  method Watch(u: Universe, source: Source, directory: Directory, ticks: seq<Tick>) returns (state: State)
    modifies directory
    ensures state == Run(u, source, old(directory.Contents()), ticks)
    ensures directory.Contents() == state.disk
  {
    ghost var start := directory.Contents();
    state := Start(directory.Contents());
    var i := 0;
    while i < |ticks| && state.ending.Running?
      invariant 0 <= i <= |ticks|
      invariant directory.Contents() == state.disk
      invariant state == Run(u, source, start, ticks[..i])
    {
      assert ticks[..i + 1][..i] == ticks[..i];
      state := TakeTick(u, source, directory, state, ticks[i]);
      i := i + 1;
    }
    assert ticks[..|ticks|] == ticks;
    if i < |ticks| {
      EndedStaysEnded((some: seq<Tick>) => Run(u, source, start, some), HasEnded, ticks, i);
    }
  }
}
