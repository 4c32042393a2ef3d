/**
 What the Redis watch loop guarantees over every run against an honest server.

 The server runs commands one at a time; `history[c]` is the touches command `c` makes, all at
 once, and each touch of a watched key queues a notification. Honest means: notifications arrive
 in the order they were published and none is skipped, an `MGET` answers with the values of one
 instant not earlier than the notification that woke the loop, and `del` and `expired` are
 published only for a key that then holds nothing. When the loop runs, what fails, and everything
 the writers do is free.
 */
module RedisGuarantees {
  import opened Documents
  import opened RedisWatch
  import opened Wrappers

  // ---- The server

  /** One effect of a command on one key; `None` leaves the key holding nothing. */
  datatype Touch = Touch(key: string, event: string, value: Option<string>)

  type History = seq<seq<Touch>>

  function Touched(state: map<string, string>, touches: seq<Touch>): (r: map<string, string>) {
    if touches == [] then
      state
    else
      var before := Touched(state, touches[..|touches| - 1]);
      var touch := touches[|touches| - 1];
      if touch.value.Some? then before[touch.key := touch.value.value] else before - {touch.key}
  }

  /** The values after the first `t` commands. */
  function StateAt(history: History, t: nat): (r: map<string, string>)
    requires t <= |history|
  {
    if t == 0 then map[] else Touched(StateAt(history, t - 1), history[t - 1])
  }

  /** The events after which a key holds nothing. */
  predicate IsGone(event: string) {
    event in {"del", "expired"}
  }

  ghost predicate HonestEvents(history: History) {
    forall c, k :: 0 <= c < |history| && 0 <= k < |history[c]| ==>
      (IsGone(history[c][k].event) ==> history[c][k].value.None?)
  }

  datatype Note = Note(event: string, at: nat)

  function NotesOf(touches: seq<Touch>, keys: seq<string>, at: nat): (r: seq<Note>) {
    if touches == [] then
      []
    else
      NotesOf(touches[..|touches| - 1], keys, at)
      + (if touches[|touches| - 1].key in keys then [Note(touches[|touches| - 1].event, at)] else [])
  }

  /** Every notification published for `keys` by the commands in `lo..hi`, in order. */
  function Queue(history: History, keys: seq<string>, lo: nat, hi: nat): (r: seq<Note>)
    requires hi <= |history|
    decreases hi
  {
    if hi <= lo then [] else Queue(history, keys, lo, hi - 1) + NotesOf(history[hi - 1], keys, hi - 1)
  }

  lemma {:induction false} NotesAt(touches: seq<Touch>, keys: seq<string>, at: nat)
    ensures forall q :: 0 <= q < |NotesOf(touches, keys, at)| ==> NotesOf(touches, keys, at)[q].at == at
  {
    if touches != [] { NotesAt(touches[..|touches| - 1], keys, at); }
  }

  lemma {:induction false} QueueInRange(history: History, keys: seq<string>, lo: nat, hi: nat)
    requires hi <= |history|
    ensures forall q :: 0 <= q < |Queue(history, keys, lo, hi)| ==> lo <= Queue(history, keys, lo, hi)[q].at < hi
    decreases hi
  {
    if lo < hi {
      QueueInRange(history, keys, lo, hi - 1);
      NotesAt(history[hi - 1], keys, hi - 1);
    }
  }

  lemma {:induction false} QueueGrows(history: History, keys: seq<string>, lo: nat, mid: nat, hi: nat)
    requires mid <= hi <= |history|
    ensures Queue(history, keys, lo, mid) <= Queue(history, keys, lo, hi)
    decreases hi
  {
    if mid < hi && lo < hi {
      QueueGrows(history, keys, lo, mid, hi - 1);
    }
  }

  // ---- The values of one instant

  function ValuesOf(keys: seq<string>, state: map<string, string>): (r: seq<Option<string>>) {
    if keys == [] then []
    else [if keys[0] in state then Some(state[keys[0]]) else None] + ValuesOf(keys[1..], state)
  }

  /** The document the watched keys made at instant `t`, merged in key order, if every one of them held something. */
  function Snapshot(history: History, config: Config, t: nat): (r: Option<string>)
    requires t <= |history|
  {
    var keys, state := Named(config.keys), StateAt(history, t);
    if forall i :: 0 <= i < |keys| ==> keys[i] in state
    then Merged(seq(|keys|, i requires 0 <= i < |keys| && keys[i] in state => Pair(keys[i], state[keys[i]])),
                config.fold)
    else None
  }

  // ---- What a re-read comes to

  /** Whether a turn re-reads the keys: a notification woke it that does not say a key is gone. */
  predicate Rereads(turn: Turn) {
    turn.wake.Woken? && turn.wake.payload !in {Some("del"), Some("expired")}
  }

  /** The keys beside their values, as far as both go, merged in key order; nothing if one value is missing. */
  function Together(keys: seq<string>, values: seq<Option<string>>, fold: Fold): (r: Option<string>) {
    var n := if |keys| <= |values| then |keys| else |values|;
    if forall i :: 0 <= i < n ==> values[i].Some?
    then Merged(seq(n, i requires 0 <= i < n && values[i].Some? => Pair(keys[i], values[i].value)), fold)
    else None
  }

  /** What re-reading comes to: it takes a connection, kept or opened now, an answer, and a value for every key. */
  function Answer(config: Config, connected: bool, turn: Turn): (r: Option<string>) {
    if (connected || turn.opens) && turn.reply.Values?
    then Together(Named(config.keys), turn.reply.values, config.fold)
    else None
  }

  /** Whether a connection is kept: the first one until a re-read fails, and then one that a re-read worked on. */
  function Connected(config: Config, opening: Opening, turns: seq<Turn>): (r: bool) {
    if turns == [] then
      opening.connected
    else
      var before, last := turns[..|turns| - 1], turns[|turns| - 1];
      if Rereads(last) then Answer(config, Connected(config, opening, before), last).Some?
      else Connected(config, opening, before)
  }

  lemma {:induction false} ZippedIs(keys: seq<string>, values: seq<Option<string>>)
    ensures var n := if |keys| <= |values| then |keys| else |values|;
            && (Zipped(keys, values).Some? <==> forall i :: 0 <= i < n ==> values[i].Some?)
            && (Zipped(keys, values).Some? ==>
                  && |Zipped(keys, values).value| == n
                  && forall i :: 0 <= i < n && values[i].Some? ==>
                       Zipped(keys, values).value[i] == Pair(keys[i], values[i].value))
  {
    if keys != [] && values != [] {
      ZippedIs(keys[1..], values[1..]);
      assert forall i :: 0 < i < |values| ==> values[i] == values[1..][i - 1];
    }
  }

  lemma FetchedIs(config: Config, connected: bool, turn: Turn)
    ensures Fetch(config, connected, turn).1 == Answer(config, connected, turn)
    ensures Fetch(config, connected, turn).0 == Answer(config, connected, turn).Some?
  {
    if turn.reply.Values? {
      var keys, values := Named(config.keys), turn.reply.values;
      ZippedIs(keys, values);
      var n := if |keys| <= |values| then |keys| else |values|;
      if forall i :: 0 <= i < n ==> values[i].Some? {
        assert Zipped(keys, values).value ==
               seq(n, i requires 0 <= i < n && values[i].Some? => Pair(keys[i], values[i].value));
      }
    }
  }

  lemma {:induction false} ValuesAt(keys: seq<string>, state: map<string, string>)
    ensures |ValuesOf(keys, state)| == |keys|
    ensures forall i :: 0 <= i < |keys| ==>
              ValuesOf(keys, state)[i] == if keys[i] in state then Some(state[keys[i]]) else None
  {
    if keys != [] { ValuesAt(keys[1..], state); }
  }

  /** An honest answer comes to the snapshot of its instant. */
  lemma SnapshotIsTogether(history: History, config: Config, t: nat)
    requires t <= |history|
    ensures Together(Named(config.keys), ValuesOf(Named(config.keys), StateAt(history, t)), config.fold)
         == Snapshot(history, config, t)
  {
    var keys, state := Named(config.keys), StateAt(history, t);
    var values := ValuesOf(keys, state);
    ValuesAt(keys, state);
    if forall i :: 0 <= i < |keys| ==> keys[i] in state {
      assert seq(|keys|, i requires 0 <= i < |keys| && values[i].Some? => Pair(keys[i], values[i].value))
          == seq(|keys|, i requires 0 <= i < |keys| && keys[i] in state => Pair(keys[i], state[keys[i]]));
    }
  }

  lemma AnswerIsSnapshot(history: History, config: Config, connected: bool, turn: Turn)
    requires turn.at <= |history|
    requires turn.reply.Values? ==> turn.reply.values == ValuesOf(Named(config.keys), StateAt(history, turn.at))
    ensures var answer := Answer(config, connected, turn);
            answer.Some? ==> answer == Snapshot(history, config, turn.at)
  {
    SnapshotIsTogether(history, config, turn.at);
  }

  // ---- Turns that were taken

  /** A run whose every turn was taken: it had not ended before its last one. */
  ghost predicate Taken(config: Config, opening: Opening, turns: seq<Turn>) {
    turns != [] ==> Run(config, opening, turns[..|turns| - 1]).ending.Running?
  }

  lemma {:induction false} ConnectedIs(config: Config, opening: Opening, turns: seq<Turn>)
    requires Taken(config, opening, turns)
    ensures Run(config, opening, turns).connected == Connected(config, opening, turns)
  {
    if turns != [] {
      var before := turns[..|turns| - 1];
      ConnectedIs(config, opening, before);
      FetchedIs(config, Connected(config, opening, before), turns[|turns| - 1]);
    }
  }

  /** A run begins exactly for a known format and at least one named key, told of changes and subscribed. */
  lemma BeginsIff(config: Config, opening: Opening)
    ensures var state := Run(config, opening, []);
            && (state.ending.AtDoor? <==> !config.formatKnown || config.keys.Prefix? || config.keys == Several([]))
            && (state.ending.Running? <==> !state.ending.AtDoor? && opening.notifying && opening.subscribed)
            && (state.ending.AtDoor? || state.ending.Running? || state.ending.StoreFailure?)
            && state.reports == (if state.ending.StoreFailure? then 1 else 0)
            && state.delivered == []
  {
  }

  /** A turn that neither re-reads nor breaks the subscription changes nothing. */
  lemma OthersChangeNothing(config: Config, opening: Opening, turns: seq<Turn>)
    requires turns != [] && !Rereads(turns[|turns| - 1]) && !turns[|turns| - 1].wake.BrokenSubscription?
    ensures Run(config, opening, turns) == Run(config, opening, turns[..|turns| - 1])
  {
  }

  /** A re-read that comes to nothing is reported, delivers nothing, leaves no connection, and the watch goes on. */
  lemma FailedReadIsSurvived(config: Config, opening: Opening, turns: seq<Turn>)
    requires Taken(config, opening, turns) && turns != [] && Rereads(turns[|turns| - 1])
    requires var before := turns[..|turns| - 1];
             Answer(config, Connected(config, opening, before), turns[|turns| - 1]).None?
    ensures var before, after := Run(config, opening, turns[..|turns| - 1]), Run(config, opening, turns);
            after == before.(connected := false, reports := before.reports + 1)
  {
    ConnectedIs(config, opening, turns[..|turns| - 1]);
    FetchedIs(config, Connected(config, opening, turns[..|turns| - 1]), turns[|turns| - 1]);
  }

  /**
   A re-read that comes to a document hands it over, unless several keys made the same document as
   last time; it keeps the connection and reports nothing, and the callback alone can end the watch.
   */
  lemma AnswerIsDelivered(config: Config, opening: Opening, turns: seq<Turn>, document: string)
    requires Taken(config, opening, turns) && turns != [] && Rereads(turns[|turns| - 1])
    requires var before := turns[..|turns| - 1];
             Answer(config, Connected(config, opening, before), turns[|turns| - 1]) == Some(document)
    ensures var before, after := Run(config, opening, turns[..|turns| - 1]), Run(config, opening, turns);
            var n := |before.delivered|;
            && after.connected && after.reports == before.reports
            && (if |Named(config.keys)| > 1 && n > 0 && before.delivered[n - 1] == document
                then after.delivered == before.delivered && after.ending.Running?
                else && after.delivered == before.delivered + [document]
                     && after.ending == if config.accepts(n) then Running else CallbackRefused)
  {
    ConnectedIs(config, opening, turns[..|turns| - 1]);
    FetchedIs(config, Connected(config, opening, turns[..|turns| - 1]), turns[|turns| - 1]);
    LastIsHeld(config, opening, turns[..|turns| - 1]);
  }

  /** The callback took every document but, if it ended the watch, the last; and its refusal always ends it. */
  lemma {:induction false} CallbackEndsIff(config: Config, opening: Opening, turns: seq<Turn>)
    ensures var state := Run(config, opening, turns);
            && (state.ending.CallbackRefused? <==>
                  state.delivered != [] && !config.accepts(|state.delivered| - 1))
            && forall i :: 0 <= i < |state.delivered| - 1 ==> config.accepts(i)
  {
    if turns != [] { CallbackEndsIff(config, opening, turns[..|turns| - 1]); }
  }

  /** What the coalescing compares with is what was delivered last. */
  lemma {:induction false} LastIsHeld(config: Config, opening: Opening, turns: seq<Turn>)
    ensures var state := Run(config, opening, turns);
            |Named(config.keys)| > 1 ==>
              (state.last == if state.delivered == [] then None else Some(state.delivered[|state.delivered| - 1]))
  {
    if turns != [] { LastIsHeld(config, opening, turns[..|turns| - 1]); }
  }

  lemma {:induction false} SameValues(keys: seq<string>, a: map<string, string>, b: map<string, string>)
    requires forall key :: key in keys ==> key in a && key in b && a[key] == b[key]
    ensures ValuesOf(keys, a) == ValuesOf(keys, b)
  {
    if keys != [] { SameValues(keys[1..], a, b); }
  }

  // ---- Honest runs

  function Wakes(turns: seq<Turn>): (r: nat) {
    if turns == [] then 0
    else Wakes(turns[..|turns| - 1]) + (if turns[|turns| - 1].wake.Woken? then 1 else 0)
  }

  ghost predicate HonestTurn(history: History, config: Config, opening: Opening, since: nat, turns: seq<Turn>, i: nat)
    requires i < |turns|
  {
    var queue := if turns[i].at <= |history| then Queue(history, Named(config.keys), since, turns[i].at) else [];
    && Run(config, opening, turns[..i]).ending.Running?
    && since <= turns[i].at <= |history|
    && (i > 0 ==> turns[i - 1].at <= turns[i].at)
    && (turns[i].wake.Woken? ==>
         Wakes(turns[..i]) < |queue| && turns[i].wake.payload == Some(queue[Wakes(turns[..i])].event))
    && (turns[i].reply.Values? ==>
         turns[i].reply.values == ValuesOf(Named(config.keys), StateAt(history, turns[i].at)))
  }

  /** `since` is the command count at which the subscription took effect. */
  ghost predicate HonestRun(history: History, config: Config, opening: Opening, since: nat, turns: seq<Turn>) {
    && since <= |history|
    && HonestEvents(history)
    && forall i :: 0 <= i < |turns| ==> HonestTurn(history, config, opening, since, turns, i)
  }

  lemma HonestPrefix(history: History, config: Config, opening: Opening, since: nat, turns: seq<Turn>)
    requires HonestRun(history, config, opening, since, turns) && turns != []
    ensures HonestRun(history, config, opening, since, turns[..|turns| - 1])
    ensures HonestTurn(history, config, opening, since, turns, |turns| - 1)
    ensures Run(config, opening, turns[..|turns| - 1]).ending.Running?
  {
    var before := turns[..|turns| - 1];
    forall i | 0 <= i < |before| ensures HonestTurn(history, config, opening, since, before, i) {
      assert HonestTurn(history, config, opening, since, turns, i);
      assert before[..i] == turns[..i];
    }
    assert HonestTurn(history, config, opening, since, turns, |turns| - 1);
  }

  // ---- Never torn

  /** Which turns delivered, in order. */
  function Deliverers(config: Config, opening: Opening, turns: seq<Turn>): (r: seq<nat>) {
    if turns == [] then
      []
    else
      var before := turns[..|turns| - 1];
      Deliverers(config, opening, before)
      + (if |Run(config, opening, turns).delivered| > |Run(config, opening, before).delivered| then [|before|] else [])
  }

  /** Delivery `j`, made by turn `i`: the document of one instant, newer than what woke the turn. */
  ghost predicate Whole(history: History, config: Config, since: nat, turns: seq<Turn>, i: nat, document: string) {
    && i < |turns| && turns[i].at <= |history|
    && Wakes(turns[..i]) < |Queue(history, Named(config.keys), since, turns[i].at)|
    && Queue(history, Named(config.keys), since, turns[i].at)[Wakes(turns[..i])].at < turns[i].at
    && Snapshot(history, config, turns[i].at) == Some(document)
  }

  ghost predicate AllWhole(history: History, config: Config, since: nat, turns: seq<Turn>, whose: seq<nat>,
                           delivered: seq<string>) {
    && |whose| == |delivered|
    && (forall j :: 0 <= j < |whose| ==> Whole(history, config, since, turns, whose[j], delivered[j]))
    && (forall j, k :: 0 <= j < k < |whose| ==> whose[j] < whose[k])
  }

  ghost predicate NoneTwice(delivered: seq<string>) {
    forall j :: 0 < j < |delivered| ==> delivered[j - 1] != delivered[j]
  }

  /**
   Never torn: every delivery is the document the server held at one instant, later than the
   write that woke the loop; deliveries are made by turns in order, so those instants never go
   back; and a watch on more than one key never delivers the same document twice running.
   */
  lemma {:induction false} NeverTorn(history: History, config: Config, opening: Opening, since: nat, turns: seq<Turn>)
    requires HonestRun(history, config, opening, since, turns)
    ensures AllWhole(history, config, since, turns, Deliverers(config, opening, turns),
                     Run(config, opening, turns).delivered)
    ensures |Named(config.keys)| > 1 ==> NoneTwice(Run(config, opening, turns).delivered)
  {
    if turns != [] {
      var before := turns[..|turns| - 1];
      HonestPrefix(history, config, opening, since, turns);
      NeverTorn(history, config, opening, since, before);
      TurnDeliversWhole(history, config, opening, since, turns);
      WholeCarriesOver(history, config, since, turns,
                       Deliverers(config, opening, before), Run(config, opening, before).delivered,
                       Deliverers(config, opening, turns), Run(config, opening, turns).delivered);
    }
  }

  lemma WholeCarriesOver(history: History, config: Config, since: nat, turns: seq<Turn>,
                         whose: seq<nat>, held: seq<string>, whose': seq<nat>, delivered: seq<string>)
    requires turns != [] && AllWhole(history, config, since, turns[..|turns| - 1], whose, held)
    requires (delivered == held && whose' == whose) ||
             (&& |delivered| == |held| + 1 && delivered[..|held|] == held && whose' == whose + [|turns| - 1]
              && Whole(history, config, since, turns, |turns| - 1, delivered[|held|]))
    ensures AllWhole(history, config, since, turns, whose', delivered)
    ensures NoneTwice(held) && (|delivered| > |held| > 0 ==> held[|held| - 1] != delivered[|held|]) ==>
              NoneTwice(delivered)
  {
    forall j | 0 <= j < |whose| ensures Whole(history, config, since, turns, whose[j], held[j]) {
      StillWhole(history, config, since, turns, whose[j], held[j]);
    }
    if delivered != held {
      assert delivered == held + [delivered[|held|]];
    }
  }

  lemma StillWhole(history: History, config: Config, since: nat, turns: seq<Turn>, i: nat, document: string)
    requires turns != [] && Whole(history, config, since, turns[..|turns| - 1], i, document)
    ensures Whole(history, config, since, turns, i, document)
  {
    assert turns[..i] == turns[..|turns| - 1][..i];
  }

  /** One turn delivers nothing, or one whole document that a coalescing watch has not just delivered. */
  lemma TurnDeliversWhole(history: History, config: Config, opening: Opening, since: nat, turns: seq<Turn>)
    requires HonestRun(history, config, opening, since, turns) && turns != []
    ensures var n := |turns| - 1;
            var held, delivered := Run(config, opening, turns[..n]).delivered, Run(config, opening, turns).delivered;
            || delivered == held
            || (&& |delivered| == |held| + 1 && delivered[..|held|] == held
                && Whole(history, config, since, turns, n, delivered[|held|])
                && (|Named(config.keys)| > 1 && held != [] ==> held[|held| - 1] != delivered[|held|]))
  {
    var n := |turns| - 1;
    HonestPrefix(history, config, opening, since, turns);
    QueueInRange(history, Named(config.keys), since, turns[n].at);
    if Rereads(turns[n]) {
      var answer := Answer(config, Connected(config, opening, turns[..n]), turns[n]);
      AnswerIsSnapshot(history, config, Connected(config, opening, turns[..n]), turns[n]);
      if answer.Some? {
        AnswerIsDelivered(config, opening, turns, answer.value);
      } else {
        FailedReadIsSurvived(config, opening, turns);
      }
    }
  }

  lemma {:induction false} TurnsInOrder(history: History, config: Config, opening: Opening, since: nat,
                                        turns: seq<Turn>, i: nat, k: nat)
    requires HonestRun(history, config, opening, since, turns)
    requires i <= k < |turns|
    ensures turns[i].at <= turns[k].at
    decreases k - i
  {
    if i < k {
      assert HonestTurn(history, config, opening, since, turns, i + 1);
      TurnsInOrder(history, config, opening, since, turns, i + 1, k);
    }
  }

  /**
   The caller never goes back in time: of two deliveries the later is the document of an instant no
   earlier than the other's.
   */
  lemma InstantsNeverGoBack(history: History, config: Config, opening: Opening, since: nat, turns: seq<Turn>, j: nat,
                            k: nat)
    requires HonestRun(history, config, opening, since, turns)
    requires j < k < |Run(config, opening, turns).delivered|
    ensures var whose, delivered := Deliverers(config, opening, turns), Run(config, opening, turns).delivered;
            && k < |whose| && whose[j] < whose[k] < |turns|
            && turns[whose[j]].at <= turns[whose[k]].at <= |history|
            && Snapshot(history, config, turns[whose[j]].at) == Some(delivered[j])
            && Snapshot(history, config, turns[whose[k]].at) == Some(delivered[k])
  {
    var whose, delivered := Deliverers(config, opening, turns), Run(config, opening, turns).delivered;
    NeverTorn(history, config, opening, since, turns);
    assert Whole(history, config, since, turns, whose[j], delivered[j]);
    assert Whole(history, config, since, turns, whose[k], delivered[k]);
    TurnsInOrder(history, config, opening, since, turns, whose[j], whose[k]);
  }

  // ---- Convergence

  /** The instant of the latest re-read attempted, or of the subscription. */
  function ReadInstant(since: nat, turns: seq<Turn>): (r: nat) {
    if turns == [] then since
    else if Rereads(turns[|turns| - 1]) then turns[|turns| - 1].at
    else ReadInstant(since, turns[..|turns| - 1])
  }

  /** What the latest re-read attempted came back with. */
  function Held(config: Config, opening: Opening, turns: seq<Turn>): (r: Option<string>) {
    if turns == [] then
      None
    else
      var before := turns[..|turns| - 1];
      if Rereads(turns[|turns| - 1])
      then Answer(config, Connected(config, opening, before), turns[|turns| - 1])
      else Held(config, opening, before)
  }

  /** A write consumed from the queue is older than the latest re-read. */
  ghost predicate Settled(queue: seq<Note>, wakes: nat, read: nat) {
    wakes <= |queue| &&
    forall q :: 0 <= q < wakes && !IsGone(queue[q].event) ==> queue[q].at < read
  }

  lemma {:induction false} WritesAreRead(history: History, config: Config, opening: Opening, since: nat,
                                         turns: seq<Turn>, now: nat)
    requires HonestRun(history, config, opening, since, turns)
    requires since <= now <= |history| && (turns != [] ==> turns[|turns| - 1].at <= now)
    ensures Settled(Queue(history, Named(config.keys), since, now), Wakes(turns), ReadInstant(since, turns))
    ensures since <= ReadInstant(since, turns) <= now
  {
    if turns != [] {
      var before := turns[..|turns| - 1];
      var last := turns[|turns| - 1];
      HonestPrefix(history, config, opening, since, turns);
      WritesAreRead(history, config, opening, since, before, last.at);
      WritesAreRead(history, config, opening, since, before, now);
      QueueGrows(history, Named(config.keys), since, last.at, now);
      var queue := Queue(history, Named(config.keys), since, now);
      var earlier := Queue(history, Named(config.keys), since, last.at);
      assert forall q :: 0 <= q < |earlier| ==> queue[q] == earlier[q] && earlier[q].at < last.at by {
        QueueInRange(history, Named(config.keys), since, last.at);
      }
    }
  }

  /** What was held last was delivered last, and is the snapshot of the instant it was read at. */
  lemma {:induction false} HeldIsDelivered(history: History, config: Config, opening: Opening, since: nat,
                                           turns: seq<Turn>)
    requires HonestRun(history, config, opening, since, turns)
    requires Held(config, opening, turns).Some?
    ensures var delivered := Run(config, opening, turns).delivered;
            delivered != [] && Held(config, opening, turns) == Some(delivered[|delivered| - 1])
    ensures ReadInstant(since, turns) <= |history|
    ensures Held(config, opening, turns) == Snapshot(history, config, ReadInstant(since, turns))
  {
    if Rereads(turns[|turns| - 1]) {
      LastReadIsDelivered(history, config, opening, since, turns);
    } else {
      HonestPrefix(history, config, opening, since, turns);
      HeldIsDelivered(history, config, opening, since, turns[..|turns| - 1]);
    }
  }

  lemma LastReadIsDelivered(history: History, config: Config, opening: Opening, since: nat, turns: seq<Turn>)
    requires HonestRun(history, config, opening, since, turns)
    requires Held(config, opening, turns).Some? && Rereads(turns[|turns| - 1])
    ensures var delivered := Run(config, opening, turns).delivered;
            delivered != [] && Held(config, opening, turns) == Some(delivered[|delivered| - 1])
    ensures turns[|turns| - 1].at <= |history|
    ensures Held(config, opening, turns) == Snapshot(history, config, turns[|turns| - 1].at)
  {
    var before, last := turns[..|turns| - 1], turns[|turns| - 1];
    HonestPrefix(history, config, opening, since, turns);
    AnswerIsSnapshot(history, config, Connected(config, opening, before), last);
    AnswerIsDelivered(config, opening, turns, Held(config, opening, turns).value);
  }

  lemma {:induction false} UntouchedStays(state: map<string, string>, touches: seq<Touch>, keys: seq<string>,
                                          key: string, at: nat)
    requires key in keys
    requires forall q :: 0 <= q < |NotesOf(touches, keys, at)| ==> IsGone(NotesOf(touches, keys, at)[q].event)
    requires forall k :: 0 <= k < |touches| ==> (IsGone(touches[k].event) ==> touches[k].value.None?)
    requires key in Touched(state, touches)
    ensures key in state && state[key] == Touched(state, touches)[key]
  {
    if touches != [] {
      var before := touches[..|touches| - 1];
      var notes, fewer := NotesOf(touches, keys, at), NotesOf(before, keys, at);
      assert forall q :: 0 <= q < |fewer| ==> fewer[q] == notes[q];
      assert touches[|touches| - 1].key in keys ==> IsGone(touches[|touches| - 1].event) by {
        if touches[|touches| - 1].key in keys {
          assert notes[|fewer|].event == touches[|touches| - 1].event;
        }
      }
      UntouchedStays(state, before, keys, key, at);
    }
  }

  /** No notification in the queue is of a write made at `t` or later. */
  ghost predicate QuietSince(history: History, keys: seq<string>, since: nat, t: nat, now: nat)
    requires now <= |history|
  {
    forall q :: 0 <= q < |Queue(history, keys, since, now)| && !IsGone(Queue(history, keys, since, now)[q].event)
      ==> Queue(history, keys, since, now)[q].at < t
  }

  /** What that says of the latest command, and of the queue before it. */
  lemma NothingNotified(history: History, keys: seq<string>, since: nat, t: nat, now: nat)
    requires since <= t < now <= |history| && QuietSince(history, keys, since, t, now)
    ensures QuietSince(history, keys, since, t, now - 1)
    ensures var notes := NotesOf(history[now - 1], keys, now - 1);
            forall q :: 0 <= q < |notes| ==> IsGone(notes[q].event)
  {
    var queue, shorter := Queue(history, keys, since, now), Queue(history, keys, since, now - 1);
    var notes := NotesOf(history[now - 1], keys, now - 1);
    NotesAt(history[now - 1], keys, now - 1);
    forall q | 0 <= q < |notes| ensures IsGone(notes[q].event) {
      assert queue[|shorter| + q] == notes[q];
    }
    forall q | 0 <= q < |shorter| && !IsGone(shorter[q].event) ensures shorter[q].at < t {
      assert queue[q] == shorter[q];
    }
  }

  /** With no write notified in `t..now`, a key that holds something now held the same at `t`. */
  lemma {:induction false} QuietKey(history: History, keys: seq<string>, key: string, since: nat, t: nat, now: nat)
    requires HonestEvents(history) && key in keys
    requires since <= t <= now <= |history|
    requires QuietSince(history, keys, since, t, now)
    requires key in StateAt(history, now)
    ensures key in StateAt(history, t) && StateAt(history, t)[key] == StateAt(history, now)[key]
  {
    if t < now {
      NothingNotified(history, keys, since, t, now);
      UntouchedStays(StateAt(history, now - 1), history[now - 1], keys, key, now - 1);
      QuietKey(history, keys, key, since, t, now - 1);
    }
  }

  /**
   The watch converges: under every interleaving of writes with the loop, once the queue is
   drained, the latest re-read answered and every watched key holds something, the document last
   delivered is the document of the values the server holds now.
   */
  lemma Converges(history: History, config: Config, opening: Opening, since: nat, turns: seq<Turn>, now: nat)
    requires HonestRun(history, config, opening, since, turns)
    requires since <= now <= |history| && (turns != [] ==> turns[|turns| - 1].at <= now)
    requires Wakes(turns) == |Queue(history, Named(config.keys), since, now)|
    requires Held(config, opening, turns).Some?
    requires forall key :: key in Named(config.keys) ==> key in StateAt(history, now)
    ensures var delivered := Run(config, opening, turns).delivered;
            delivered != [] && Snapshot(history, config, now) == Some(delivered[|delivered| - 1])
  {
    var keys := Named(config.keys);
    var t := ReadInstant(since, turns);
    WritesAreRead(history, config, opening, since, turns, now);
    HeldIsDelivered(history, config, opening, since, turns);
    forall key | key in keys
      ensures key in StateAt(history, t) && StateAt(history, t)[key] == StateAt(history, now)[key]
    {
      QuietKey(history, keys, key, since, t, now);
    }
    SameValues(keys, StateAt(history, t), StateAt(history, now));
    SnapshotIsTogether(history, config, t);
    SnapshotIsTogether(history, config, now);
  }

  // ---- Reports

  /** How many turns asked for the set and got nothing back. */
  function FailedReads(config: Config, opening: Opening, turns: seq<Turn>): (r: nat) {
    if turns == [] then
      0
    else
      var before := turns[..|turns| - 1];
      var failed := Rereads(turns[|turns| - 1])
                    && Answer(config, Connected(config, opening, before), turns[|turns| - 1]).None?;
      FailedReads(config, opening, before) + (if failed then 1 else 0)
  }

  /** Each failed re-read is reported once and survived; the only store failure that ends a run is reported too. */
  lemma {:induction false} EveryFailureReportedOnce(config: Config, opening: Opening, turns: seq<Turn>)
    requires Taken(config, opening, turns)
    ensures var state := Run(config, opening, turns);
            && state.reports == FailedReads(config, opening, turns) + (if state.ending.StoreFailure? then 1 else 0)
            && (turns != [] ==>
                  && !state.ending.AtDoor?
                  && (state.ending.StoreFailure? <==> turns[|turns| - 1].wake.BrokenSubscription?))
  {
    if turns != [] {
      var before, last := turns[..|turns| - 1], turns[|turns| - 1];
      EveryFailureReportedOnce(config, opening, before);
      if Rereads(last) {
        var answer := Answer(config, Connected(config, opening, before), last);
        if answer.Some? {
          AnswerIsDelivered(config, opening, turns, answer.value);
        } else {
          FailedReadIsSurvived(config, opening, turns);
        }
      }
    }
  }

  // ---- A read delivers

  /**
   Whatever went before, a turn that re-reads delivers the store's document of that instant, unless
   several keys made the same one last time, and reports nothing, as soon as there is a connection,
   kept or opened now, an answer, and a document to be had. So the read after a failed one delivers
   if a connection can be opened.
   */
  lemma ReadDelivers(history: History, config: Config, opening: Opening, since: nat, turns: seq<Turn>,
                     document: string)
    requires HonestRun(history, config, opening, since, turns) && turns != []
    requires var last := turns[|turns| - 1];
             && Rereads(last) && last.reply.Values? && last.at <= |history|
             && (last.opens || Connected(config, opening, turns[..|turns| - 1]))
             && Snapshot(history, config, last.at) == Some(document)
    ensures var before, after := Run(config, opening, turns[..|turns| - 1]), Run(config, opening, turns);
            var n := |before.delivered|;
            && after.delivered != [] && after.delivered[|after.delivered| - 1] == document
            && (if |Named(config.keys)| > 1 && n > 0 && before.delivered[n - 1] == document
                then after.delivered == before.delivered
                else after.delivered == before.delivered + [document])
            && after.reports == before.reports && after.connected
  {
    HonestPrefix(history, config, opening, since, turns);
    SnapshotIsTogether(history, config, turns[|turns| - 1].at);
    AnswerIsDelivered(config, opening, turns, document);
  }
}
