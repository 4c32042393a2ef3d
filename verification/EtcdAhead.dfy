/**
 The etcd watch of one key against a cluster whose headers may run ahead of its events: a message says
 the store is at `h` and brings the events of the stream only up to some earlier place, as the answer
 that opens a resumed stream may. The loop resumes just past the header whatever the message brought.
 */
module EtcdAhead {
  import opened EtcdGuarantees
  import opened EtcdStore
  import opened EtcdWatch
  import opened Wrappers

  /** Where the stream stands: past the events it has carried, `covered[i]` after the message of turn `i`. */
  function Reached(config: Config, opening: Opening, turns: seq<Turn>, covered: seq<nat>): (r: nat)
    requires |covered| == |turns|
  {
    if turns == [] then
      opening.now
    else
      var n := |turns| - 1;
      match turns[n].stream
      case Ended => Reached(config, opening, turns[..n], covered[..n])
      case Received(_) => covered[n]
      case Broken(_) =>
        match Run(config, opening, turns[..n]).resumeFrom
        case Some(revision) => revision
        case None => turns[n].now
  }

  /** Where the stream stood whose message was the first to carry a header. */
  function Since(config: Config, opening: Opening, turns: seq<Turn>, covered: seq<nat>): (r: nat)
    requires |covered| == |turns|
  {
    if turns == [] || Run(config, opening, turns).resumeFrom.None? then
      Reached(config, opening, turns, covered)
    else
      var n := |turns| - 1;
      if Run(config, opening, turns[..n]).resumeFrom.Some? then Since(config, opening, turns[..n], covered[..n])
      else Reached(config, opening, turns[..n], covered[..n])
  }

  /** A message brings what comes next on the stream, up to where it is covered and never past its header. */
  ghost predicate Brings(history: History, keys: Keys, stream: StreamReply, position: nat, covered: nat) {
    stream.Received? ==>
      var message := stream.message;
      match message.header
      case None => covered == position && (message.canceled || message.events == [])
      case Some(h) =>
        && position <= covered <= h + 1 <= |history|
        && (message.canceled || message.events == Events(history, keys, position, covered))
  }

  ghost predicate LooseRun(history: History, config: Config, opening: Opening, turns: seq<Turn>, covered: seq<nat>) {
    && |covered| == |turns| && opening.now <= |history|
    && (turns == [] ||
        var n := |turns| - 1;
        && LooseRun(history, config, opening, turns[..n], covered[..n])
        && Run(config, opening, turns[..n]).ending.Running?
        && turns[n].now <= |history|
        && Brings(history, config.keys, turns[n].stream, Reached(config, opening, turns[..n], covered[..n]),
                  covered[n]))
  }

  /** The puts of revisions a recovery skipped: those between where the stream stood and where it resumed. */
  function Skipped(history: History, config: Config, opening: Opening, turns: seq<Turn>,
                   covered: seq<nat>): (r: seq<Delivery>)
    requires |covered| == |turns|
  {
    if turns == [] then
      []
    else
      var n := |turns| - 1;
      var state, stood := Run(config, opening, turns[..n]), Reached(config, opening, turns[..n], covered[..n]);
      Skipped(history, config, opening, turns[..n], covered[..n])
      + (if turns[n].stream.Broken? && state.resumeFrom.Some? && state.resumeFrom.value <= |history|
         then Puts(Events(history, config.keys, stood, state.resumeFrom.value)) else [])
  }

  /** Every put of the key from the first header on. */
  function DueSince(history: History, keys: Keys, since: nat, reached: nat): (r: seq<Delivery>)
    requires reached <= |history|
  {
    Puts(Events(history, keys, since, reached))
  }

  lemma DueSplits(history: History, keys: Keys, since: nat, mid: nat, reached: nat)
    requires since <= mid <= reached <= |history|
    ensures DueSince(history, keys, since, reached) ==
            DueSince(history, keys, since, mid) + Puts(Events(history, keys, mid, reached))
  {
    EventsSplit(history, keys, since, mid, reached);
    PutsAppend(Events(history, keys, since, mid), Events(history, keys, mid, reached));
  }

  /** What was due is what was delivered and what was skipped, and no more. */
  predicate Accounts(delivered: seq<Delivery>, skipped: seq<Delivery>, due: seq<Delivery>) {
    |delivered| + |skipped| == |due| && (skipped == [] ==> delivered == due)
  }

  /** Where a run stands, from its own part and the server's. */
  ghost predicate Stands(history: History, keys: Keys, state: State, since: nat, reached: nat, skipped: seq<Delivery>) {
    && since <= reached <= |history|
    && Accounts(state.delivered, skipped, DueSince(history, keys, since, reached))
    && match state.resumeFrom
       case None => since == reached && state.delivered == [] && skipped == []
       case Some(revision) => reached <= revision <= |history|
  }

  /** A message handed over: the puts it brought, and nothing skipped. */
  lemma MessageStands(history: History, config: Config, state: State, turn: Turn, since: nat, reached: nat,
                      skipped: seq<Delivery>, covered: nat)
    requires config.keys.One? && state.ending.Running? && turn.stream.Received?
    requires Stands(history, config.keys, state, since, reached, skipped)
    requires Brings(history, config.keys, turn.stream, reached, covered)
    requires Step(config, state, turn).ending.Running?
    ensures Stands(history, config.keys, Step(config, state, turn), since, covered, skipped)
  {
    var message := turn.stream.message;
    StepResume(config, state, turn);
    HandsInOrder(config, Heard(state, message), message.events);
    DueSplits(history, config.keys, since, reached, covered);
  }

  /** A recovery: it delivers nothing, and skips what lies between the stream and the header. */
  lemma RecoveryStands(history: History, config: Config, state: State, turn: Turn, since: nat, reached: nat,
                       skipped: seq<Delivery>)
    requires config.keys.One? && state.ending.Running? && turn.stream.Broken? && turn.now <= |history|
    requires Stands(history, config.keys, state, since, reached, skipped)
    requires Step(config, state, turn).ending.Running?
    ensures var after := Step(config, state, turn);
            match state.resumeFrom
            case None => Stands(history, config.keys, after, turn.now, turn.now, skipped)
            case Some(revision) =>
              Stands(history, config.keys, after, since, revision,
                     skipped + Puts(Events(history, config.keys, reached, revision)))
  {
    StepResume(config, state, turn);
    match state.resumeFrom {
      case None =>
      case Some(revision) => DueSplits(history, config.keys, since, reached, revision);
    }
  }

  lemma {:induction false} RunStands(history: History, config: Config, opening: Opening, turns: seq<Turn>,
                                     covered: seq<nat>)
    requires config.keys.One? && LooseRun(history, config, opening, turns, covered)
    requires Run(config, opening, turns).ending.Running?
    ensures Stands(history, config.keys, Run(config, opening, turns), Since(config, opening, turns, covered),
                   Reached(config, opening, turns, covered), Skipped(history, config, opening, turns, covered))
  {
    if turns != [] {
      var n := |turns| - 1;
      var state := Run(config, opening, turns[..n]);
      var skipped := Skipped(history, config, opening, turns[..n], covered[..n]);
      var since := Since(config, opening, turns[..n], covered[..n]);
      var reached := Reached(config, opening, turns[..n], covered[..n]);
      RunStands(history, config, opening, turns[..n], covered[..n]);
      StepResume(config, state, turns[n]);
      assert skipped + [] == skipped;
      match turns[n].stream {
        case Received(_) => MessageStands(history, config, state, turns[n], since, reached, skipped, covered[n]);
        case Broken(_) => RecoveryStands(history, config, state, turns[n], since, reached, skipped);
        case Ended =>
      }
    }
  }

  /**
   When headers may run ahead, the key's puts are still handed over exactly once if and only if no
   recovery came while a header was ahead of a put: what is missing is exactly what lay between where
   the stream stood and where the loop resumed it.
   */
  lemma ExactlyOnceIff(history: History, config: Config, opening: Opening, turns: seq<Turn>, covered: seq<nat>)
    requires config.keys.One? && LooseRun(history, config, opening, turns, covered)
    requires Run(config, opening, turns).ending.Running?
    ensures Since(config, opening, turns, covered) <= Reached(config, opening, turns, covered) <= |history|
    ensures var delivered := Run(config, opening, turns).delivered;
            var skipped := Skipped(history, config, opening, turns, covered);
            var due := DueSince(history, config.keys, Since(config, opening, turns, covered),
                                Reached(config, opening, turns, covered));
            && (delivered == due <==> skipped == [])
            && |due| == |delivered| + |skipped|
  {
    RunStands(history, config, opening, turns, covered);
  }
}
