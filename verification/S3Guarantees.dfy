/**
 What the S3 poll guarantees over every run, with a writer free to act between any two requests.

 The bucket is the sequence of versions the object has been at; every version has an ETag of its
 own. A request made at moment `t` sees version `bucket[t]` or fails.
 */
module S3Guarantees {
  import opened S3Watch
  import opened Wrappers

  type Bucket = seq<nat>

  /** When a turn's two requests reached the bucket. */
  datatype At = At(head: nat, get: nat)

  datatype Store = Store(bucket: Bucket, etag: nat -> string, body: nat -> string)

  ghost predicate Growing(store: Store) {
    && (forall s, t :: 0 <= s < t < |store.bucket| ==> store.bucket[s] <= store.bucket[t])
    && (forall v: nat, w: nat :: store.etag(v) == store.etag(w) ==> v == w)
  }

  predicate HonestTurn(store: Store, turn: Turn, at: At) {
    && at.head <= at.get < |store.bucket|
    && (turn.head.Tag? ==> turn.head.tag == store.etag(store.bucket[at.head]))
    && (turn.get.Object? ==>
         && turn.get.text == store.body(store.bucket[at.get])
         && (turn.get.tag.Some? ==> turn.get.tag.value == store.etag(store.bucket[at.get])))
  }

  predicate HonestRun(store: Store, turns: seq<Turn>, at: seq<At>) {
    && |at| == |turns|
    && (forall i :: 0 <= i < |turns| ==> HonestTurn(store, turns[i], at[i]))
    && (forall i :: 0 < i < |turns| ==> at[i - 1].get <= at[i].head)
  }

  /** Every `GET` that answered said which tag it read. */
  predicate Tagged(turns: seq<Turn>) {
    forall i :: 0 <= i < |turns| && turns[i].get.Object? ==> turns[i].get.tag.Some?
  }

  /** The versions delivered, in order: what each delivering turn's `GET` saw. */
  function Versions(store: Store, config: Config, turns: seq<Turn>, at: seq<At>): (r: seq<nat>)
    requires HonestRun(store, turns, at)
  {
    if turns == [] then
      []
    else
      var before := turns[..|turns| - 1];
      Versions(store, config, before, at[..|turns| - 1])
      + (if |Run(config, turns).delivered| > |Run(config, before).delivered|
         then [store.bucket[at[|turns| - 1].get]] else [])
  }

  /** The version the caller has: the one delivered last, or the one the poll was primed with. */
  function Held(store: Store, config: Config, turns: seq<Turn>, at: seq<At>): (r: Option<nat>)
    requires HonestRun(store, turns, at)
  {
    if turns == [] then
      None
    else
      var before := turns[..|turns| - 1];
      if |Run(config, turns).delivered| > |Run(config, before).delivered| then
        Some(store.bucket[at[|turns| - 1].get])
      else if Run(config, before).seen.None? && Run(config, turns).seen.Some? then
        Some(store.bucket[at[|turns| - 1].head])
      else
        Held(store, config, before, at[..|turns| - 1])
  }

  /** Both requests a tick needed were answered. */
  predicate Answered(state: State, turn: Turn) {
    turn.head.Tag? && (state.seen in {None, Some(turn.head.tag)} || turn.get.Object?)
  }

  ghost predicate Ascends(versions: seq<nat>, held: Option<nat>) {
    && (forall i, j :: 0 <= i < j < |versions| ==> versions[i] < versions[j])
    && (versions != [] ==> held == Some(versions[|versions| - 1]))
  }

  ghost predicate Bodies(store: Store, versions: seq<nat>, delivered: seq<string>) {
    |versions| == |delivered| && forall j :: 0 <= j < |versions| ==> delivered[j] == store.body(versions[j])
  }

  /** The loop remembers the tag of version `held`, one the bucket was at no later than `until`. */
  ghost predicate Remembers(store: Store, state: State, held: Option<nat>, until: nat) {
    match held
    case None => state.seen == None
    case Some(version) =>
      && state.seen == Some(store.etag(version))
      && WasThere(store, version, until)
  }

  /** The latest moment of a run. */
  function Until(at: seq<At>): (r: nat) {
    if at == [] then 0 else at[|at| - 1].get
  }

  /**
   The poll handles the race between `HEAD` and `GET`: versions delivered strictly increase, so a
   write landing between the two is delivered once; what is remembered is the tag of the version
   the caller has; and after a tick whose requests were answered, that version is at least the one
   the tick's `HEAD` saw.
   */
  lemma {:induction false} DeliversEachVersionOnce(store: Store, config: Config, turns: seq<Turn>, at: seq<At>)
    requires Growing(store) && HonestRun(store, turns, at) && Tagged(turns)
    ensures Stands(store, Run(config, turns), Versions(store, config, turns, at), Held(store, config, turns, at),
                   Until(at))
    ensures var n := |turns| - 1;
            turns != [] && Run(config, turns[..n]).ending.Running? && Answered(Run(config, turns[..n]), turns[n]) ==>
              var held := Held(store, config, turns, at);
              held.Some? && store.bucket[at[n].head] <= held.value
  {
    if turns != [] {
      var n := |turns| - 1;
      DeliversEachVersionOnce(store, config, turns[..n], at[..n]);
      UntilIsEarlier(store, turns, at);
      TurnStands(store, config, Run(config, turns[..n]), turns[n], at[n], Versions(store, config, turns[..n], at[..n]),
                 Held(store, config, turns[..n], at[..n]), Until(at[..n]),
                 Versions(store, config, turns, at), Held(store, config, turns, at));
    }
  }

  lemma UntilIsEarlier(store: Store, turns: seq<Turn>, at: seq<At>)
    requires HonestRun(store, turns, at) && turns != []
    ensures Until(at[..|turns| - 1]) <= at[|turns| - 1].head && HonestTurn(store, turns[|turns| - 1], at[|turns| - 1])
  {
  }

  /** Where a run stands: the caller has had whole versions, in order, up to `held`, which the loop remembers. */
  ghost predicate Stands(store: Store, state: State, versions: seq<nat>, held: Option<nat>, until: nat) {
    && Bodies(store, versions, state.delivered)
    && Ascends(versions, held)
    && Remembers(store, state, held, until)
  }

  lemma TurnStands(store: Store, config: Config, state: State, turn: Turn, at: At,
                   versions: seq<nat>, held: Option<nat>, earlier: nat, versions': seq<nat>, held': Option<nat>)
    requires Growing(store) && HonestTurn(store, turn, at) && earlier <= at.head
    requires turn.get.Object? ==> turn.get.tag.Some?
    requires Stands(store, state, versions, held, earlier)
    requires var r := Step(config, state, turn);
             if |r.delivered| > |state.delivered| then
               versions' == versions + [store.bucket[at.get]] && held' == Some(store.bucket[at.get])
             else
               && versions' == versions
               && held' == (if state.seen.None? && r.seen.Some? then Some(store.bucket[at.head]) else held)
    ensures Stands(store, Step(config, state, turn), versions', held', at.get)
    ensures state.ending.Running? && Answered(state, turn) ==> held'.Some? && store.bucket[at.head] <= held'.value
  {
    TurnAdvances(store, config, state, turn, at, held, earlier);
    var r := Step(config, state, turn);
    if |r.delivered| > |state.delivered| {
      assert versions != [] ==> versions[|versions| - 1] < store.bucket[at.get];
    }
  }

  /** What one tick does to a loop whose caller has version `held`. */
  lemma TurnAdvances(store: Store, config: Config, state: State, turn: Turn, at: At, held: Option<nat>, earlier: nat)
    requires Growing(store) && HonestTurn(store, turn, at) && earlier <= at.head
    requires turn.get.Object? ==> turn.get.tag.Some?
    requires Remembers(store, state, held, earlier)
    ensures var r := Step(config, state, turn);
            var read, checked := store.bucket[at.get], store.bucket[at.head];
            if |r.delivered| > |state.delivered| then
              && held.Some? && held.value < checked <= read
              && r.delivered == state.delivered + [store.body(read)]
              && Remembers(store, r, Some(read), at.get)
            else
              && r.delivered == state.delivered
              && (state.seen.None? && r.seen.Some? ==>
                    state.ending.Running? && turn.head.Tag? && Remembers(store, r, Some(checked), at.get))
              && (state.seen.None? && r.seen.None? ==> state.ending.Running? ==> turn.head.HeadFailed?)
              && (state.seen.Some? ==> Remembers(store, r, held, at.get))
              && (state.ending.Running? && Answered(state, turn) && held.Some? ==> checked <= held.value)
  {
  }

  /** A `GET` that failed leaves the change to be read: the next tick whose requests are answered delivers. */
  lemma FailedGetIsRetried(store: Store, config: Config, state: State, turn: Turn, at: At, held: Option<nat>,
                           earlier: nat, next: Turn, when: At)
    requires Growing(store) && HonestTurn(store, turn, at) && HonestTurn(store, next, when)
    requires earlier <= at.head && at.get <= when.head
    requires state.ending.Running? && Remembers(store, state, held, earlier)
    requires turn.get.GetFailed? && turn.head.Tag? && state.seen !in {None, Some(turn.head.tag)}
    requires next.head.Tag? && next.get.Object?
    ensures var failed := Step(config, state, turn);
            && failed.delivered == state.delivered
            && Step(config, failed, next).delivered == state.delivered + [store.body(store.bucket[when.get])]
  {
    assert held.value < store.bucket[at.head] <= store.bucket[when.head];
  }

  /**
   Which tag is remembered decides whether a write between `HEAD` and `GET` comes twice: with
   nothing written since, the next tick delivers the version again exactly when the `GET` named no
   tag and had seen a later version than the `HEAD`.
   */
  lemma RepeatsIffUntagged(store: Store, config: Config, state: State, turn: Turn, at: At, next: Turn, when: At)
    requires Growing(store) && HonestTurn(store, turn, at) && HonestTurn(store, next, when)
    requires state.ending.Running? && Step(config, state, turn).ending.Running?
    requires |Step(config, state, turn).delivered| > |state.delivered|
    requires next.head.Tag? && next.get.Object?
    requires store.bucket[when.head] == store.bucket[when.get] == store.bucket[at.get]
    ensures var first := Step(config, state, turn);
            |Step(config, first, next).delivered| > |first.delivered| <==>
              turn.get.tag.None? && store.bucket[at.head] != store.bucket[at.get]
  {
  }

  /**
   A poll begins exactly where one is possible, ends only by the callback's refusal, and ends exactly
   when the callback refused the last document it was handed, having taken every one before.
   */
  lemma {:induction false} EndsOnlyFor(config: Config, turns: seq<Turn>)
    ensures var state := Run(config, turns);
            && (state.ending.AtDoor? <==> !config.watchable)
            && (state.ending.AtDoor? ==> state.delivered == [] && state.reports == 0)
            && (state.ending.CallbackRefused? <==>
                  state.delivered != [] && !config.accepts(|state.delivered| - 1))
            && (forall i :: 0 <= i < |state.delivered| - 1 ==> config.accepts(i))
  {
    if turns != [] { EndsOnlyFor(config, turns[..|turns| - 1]); }
  }

  /** One report for each check, and each read of a moved object, that failed; never one for a store that answered. */
  lemma {:induction false} EveryFailureReportedOnce(config: Config, turns: seq<Turn>)
    requires forall i :: 0 <= i < |turns| ==> Run(config, turns[..i]).ending.Running?
    ensures Run(config, turns).reports == Unanswered(config, turns)
  {
    if turns != [] {
      var before := turns[..|turns| - 1];
      assert turns[..|before|] == before;
      forall i | 0 <= i < |before| ensures Run(config, before[..i]).ending.Running? {
        assert before[..i] == turns[..i];
      }
      EveryFailureReportedOnce(config, before);
    }
  }

  /** How many ticks had a request go unanswered. */
  function Unanswered(config: Config, turns: seq<Turn>): (r: nat) {
    if turns == [] then 0
    else Unanswered(config, turns[..|turns| - 1])
         + (if Answered(Run(config, turns[..|turns| - 1]), turns[|turns| - 1]) then 0 else 1)
  }

  // ---- A store that may leave the tag out of a `GET`

  predicate Delivers(before: State, after: State) {
    |after.delivered| > |before.delivered|
  }

  /** The version the loop's tag stands for: behind the caller's own where a `GET` named none. */
  function TagAfter(store: Store, before: State, after: State, turn: Turn, at: At, tag: Option<nat>): (r: Option<nat>)
    requires HonestTurn(store, turn, at)
  {
    if Delivers(before, after) then
      Some(if turn.get.Object? && turn.get.tag.Some? then store.bucket[at.get] else store.bucket[at.head])
    else if before.seen.None? && after.seen.Some? then Some(store.bucket[at.head])
    else tag
  }

  function TagVersion(store: Store, config: Config, turns: seq<Turn>, at: seq<At>): (r: Option<nat>)
    requires HonestRun(store, turns, at)
  {
    if turns == [] then None
    else
      var n := |turns| - 1;
      TagAfter(store, Run(config, turns[..n]), Run(config, turns), turns[n], at[n],
               TagVersion(store, config, turns[..n], at[..n]))
  }

  /** The last delivery was of a later version than its `HEAD` had seen, and its `GET` named no tag. */
  predicate IsBehind(store: Store, config: Config, turns: seq<Turn>, at: seq<At>)
    requires HonestRun(store, turns, at)
  {
    turns != [] &&
    var n := |turns| - 1;
    if Delivers(Run(config, turns[..n]), Run(config, turns)) then
      turns[n].get.Object? && turns[n].get.tag.None? && store.bucket[at[n].head] < store.bucket[at[n].get]
    else
      IsBehind(store, config, turns[..n], at[..n])
  }

  ghost predicate NeverDecreases(versions: seq<nat>, held: Option<nat>) {
    && (forall i, j :: 0 <= i < j < |versions| ==> versions[i] <= versions[j])
    && (versions != [] ==> held == Some(versions[|versions| - 1]))
  }

  /** Where such a run stands: the loop's tag is that of a version no later than the caller's. */
  ghost predicate StandsLoosely(store: Store, state: State, versions: seq<nat>, held: Option<nat>, tag: Option<nat>,
                                until: nat, behind: bool) {
    && Bodies(store, versions, state.delivered)
    && NeverDecreases(versions, held)
    && Remembers(store, state, tag, until)
    && (held.None? <==> tag.None?)
    && (held.Some? ==> tag.value <= held.value && (tag.value < held.value <==> behind))
    && (held.None? ==> !behind)
    && (held.Some? ==> WasThere(store, held.value, until))
  }

  /** The bucket was at the version no later than `until`. */
  ghost predicate WasThere(store: Store, version: nat, until: nat) {
    exists t :: 0 <= t <= until && t < |store.bucket| && store.bucket[t] == version
  }

  /** A tick delivers the version the caller has exactly when the tag is behind and nothing was written since. */
  ghost predicate RepeatsExactly(store: Store, before: State, after: State, turn: Turn, at: At,
                                 held: Option<nat>, behind: bool)
    requires HonestTurn(store, turn, at)
  {
    Delivers(before, after) && held == Some(store.bucket[at.get]) <==>
      before.ending.Running? && Answered(before, turn) && behind && held == Some(store.bucket[at.get])
  }

  /** What a turn does to the versions delivered, the one held, the tag's, and whether that one is behind. */
  predicate Follows(store: Store, before: State, after: State, turn: Turn, at: At,
                    versions: seq<nat>, held: Option<nat>, tag: Option<nat>, behind: bool,
                    versions': seq<nat>, held': Option<nat>, tag': Option<nat>, behind': bool)
    requires HonestTurn(store, turn, at)
  {
    && tag' == TagAfter(store, before, after, turn, at, tag)
    && if Delivers(before, after) then
         && versions' == versions + [store.bucket[at.get]] && held' == Some(store.bucket[at.get])
         && behind' == (turn.get.Object? && turn.get.tag.None? && store.bucket[at.head] < store.bucket[at.get])
       else
         && versions' == versions && behind' == behind
         && held' == if before.seen.None? && after.seen.Some? then Some(store.bucket[at.head]) else held
  }

  lemma LastTurnFollows(store: Store, config: Config, turns: seq<Turn>, at: seq<At>)
    requires HonestRun(store, turns, at) && turns != []
    ensures var n := |turns| - 1;
            Follows(store, Run(config, turns[..n]), Run(config, turns), turns[n], at[n],
                    Versions(store, config, turns[..n], at[..n]), Held(store, config, turns[..n], at[..n]),
                    TagVersion(store, config, turns[..n], at[..n]), IsBehind(store, config, turns[..n], at[..n]),
                    Versions(store, config, turns, at), Held(store, config, turns, at),
                    TagVersion(store, config, turns, at), IsBehind(store, config, turns, at))
  {
    var before := Versions(store, config, turns[..|turns| - 1], at[..|turns| - 1]);
    assert before + [] == before;
  }

  lemma TurnStandsLoosely(store: Store, config: Config, state: State, turn: Turn, at: At, versions: seq<nat>,
                          held: Option<nat>, tag: Option<nat>, earlier: nat, behind: bool,
                          after: State, versions': seq<nat>, held': Option<nat>, tag': Option<nat>, behind': bool)
    requires Growing(store) && HonestTurn(store, turn, at) && earlier <= at.head
    requires StandsLoosely(store, state, versions, held, tag, earlier, behind)
    requires Follows(store, state, after, turn, at, versions, held, tag, behind, versions', held', tag', behind')
    requires after == Step(config, state, turn)
    ensures StandsLoosely(store, after, versions', held', tag', at.get, behind')
    ensures RepeatsExactly(store, state, after, turn, at, held, behind)
  {
    assert held.Some? ==> held.value <= store.bucket[at.head] <= store.bucket[at.get];
  }

  /** With or without tags, versions delivered never decrease, and the tag's is never later than the caller's. */
  lemma {:induction false} VersionsNeverDecrease(store: Store, config: Config, turns: seq<Turn>, at: seq<At>)
    requires Growing(store) && HonestRun(store, turns, at)
    ensures RunStands(store, config, turns, at)
  {
    if turns != [] {
      VersionsNeverDecrease(store, config, turns[..|turns| - 1], at[..|turns| - 1]);
      LastTurnStands(store, config, turns, at);
    }
  }

  /** Where a run stands. */
  ghost predicate RunStands(store: Store, config: Config, turns: seq<Turn>, at: seq<At>)
    requires HonestRun(store, turns, at)
  {
    StandsLoosely(store, Run(config, turns), Versions(store, config, turns, at), Held(store, config, turns, at),
                  TagVersion(store, config, turns, at), Until(at), IsBehind(store, config, turns, at))
  }

  lemma LastTurnStands(store: Store, config: Config, turns: seq<Turn>, at: seq<At>)
    requires Growing(store) && HonestRun(store, turns, at) && turns != []
    requires RunStands(store, config, turns[..|turns| - 1], at[..|turns| - 1])
    ensures RunStands(store, config, turns, at)
    ensures var n := |turns| - 1;
            RepeatsExactly(store, Run(config, turns[..n]), Run(config, turns), turns[n], at[n],
                           Held(store, config, turns[..n], at[..n]), IsBehind(store, config, turns[..n], at[..n]))
  {
    var n := |turns| - 1;
    var before, earlier := turns[..n], at[..n];
    UntilIsEarlier(store, turns, at);
    LastTurnFollows(store, config, turns, at);
    TurnStandsLoosely(store, config, Run(config, before), turns[n], at[n], Versions(store, config, before, earlier),
                      Held(store, config, before, earlier), TagVersion(store, config, before, earlier), Until(earlier),
                      IsBehind(store, config, before, earlier), Run(config, turns),
                      Versions(store, config, turns, at), Held(store, config, turns, at),
                      TagVersion(store, config, turns, at), IsBehind(store, config, turns, at));
  }

  /**
   Which ticks of a run deliver a version again: exactly those answered while the last delivery was of
   a later version than its `HEAD` had seen, by a `GET` that named no tag, and is still what is there.
   */
  lemma RepeatsOnlyIf(store: Store, config: Config, turns: seq<Turn>, at: seq<At>)
    requires Growing(store) && HonestRun(store, turns, at) && turns != []
    ensures var n := |turns| - 1;
            RepeatsExactly(store, Run(config, turns[..n]), Run(config, turns), turns[n], at[n],
                           Held(store, config, turns[..n], at[..n]), IsBehind(store, config, turns[..n], at[..n]))
  {
    VersionsNeverDecrease(store, config, turns[..|turns| - 1], at[..|turns| - 1]);
    LastTurnStands(store, config, turns, at);
  }
}
