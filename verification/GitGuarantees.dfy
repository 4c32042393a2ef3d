/**
 What the git poll guarantees over every run, with the ref free to move between any two requests
 and with the object cache underneath compacting, skipping transfers and failing where it will.

 The ref is the sequence of versions it has been at; a version is one commit. A fetch that answers
 at moment `t` names the commit of version `tips[t]`.
 */
module GitGuarantees {
  import opened Documents
  import opened GitCache
  import opened GitObjects
  import opened GitWatch
  import opened Wrappers

  datatype Remote = Remote(tips: seq<nat>, commit: nat -> Id)

  /** When the check and the read of a tick were answered. */
  datatype At = At(check: nat, read: nat)

  ghost predicate Growing(remote: Remote) {
    && (forall s, t :: 0 <= s < t < |remote.tips| ==> remote.tips[s] <= remote.tips[t])
    && (forall v: nat, w: nat :: remote.commit(v) == remote.commit(w) ==> v == w)
  }

  /** What a fetch names, if it answers, is where the ref is; nothing is asked of the cache underneath. */
  predicate NamesTip(u: Universe, source: Source, remote: Remote, disk: Disk, answers: Try, want: bool, t: nat) {
    && t < |remote.tips|
    && var answered := Attempt(u, source, disk, answers, want).result;
       answered.Ok? ==> answered.value.commit == remote.commit(remote.tips[t])
  }

  predicate HonestTick(u: Universe, source: Source, remote: Remote, disk: Disk, tick: Tick, at: At) {
    && at.check <= at.read
    && NamesTip(u, source, remote, disk, tick.check, false, at.check)
    && NamesTip(u, source, remote, Attempt(u, source, disk, tick.check, false).disk, tick.read, true, at.read)
  }

  predicate HonestRun(u: Universe, source: Source, remote: Remote, disk: Disk, ticks: seq<Tick>, at: seq<At>) {
    && |at| == |ticks|
    && (ticks == [] ||
        var n := |ticks| - 1;
        && HonestRun(u, source, remote, disk, ticks[..n], at[..n])
        && HonestTick(u, source, remote, Run(u, source, disk, ticks[..n]).disk, ticks[n], at[n])
        && Until(at[..n]) <= at[n].check)
  }

  /** The latest moment of a run. */
  function Until(at: seq<At>): (r: nat) {
    if at == [] then 0 else at[|at| - 1].read
  }

  // ---- One fetch with its retry

  lemma AttemptReadsFresh(u: Universe, source: Source, disk: Disk, answers: Try)
    requires Attempt(u, source, disk, answers, true).result.Ok?
    ensures var found := Attempt(u, source, disk, answers, true).result.value;
            Holds(u, source.config.asked, found.commit, found.documents)
  {
    ReadsFresh(u, source.config, disk, answers.first);
    ReadsFresh(u, source.config, Once(u, source.config, disk, answers.first, true).disk, answers.second);
  }

  // ---- What a delivery is

  /** The one document all of version `v` comes to, whatever the cache held when it was read. */
  ghost predicate IsVersion(u: Universe, source: Source, remote: Remote, delivery: Delivery, v: nat) {
    && delivery.commit == remote.commit(v)
    && exists documents ::
         Holds(u, source.config.asked, remote.commit(v), documents)
         && Merged(documents, source.fold) == Some(delivery.text)
  }

  ghost predicate AreVersions(u: Universe, source: Source, remote: Remote, delivered: seq<Delivery>,
                              versions: seq<nat>) {
    && |delivered| == |versions|
    && forall i :: 0 <= i < |versions| ==> IsVersion(u, source, remote, delivered[i], versions[i])
  }

  ghost predicate Ascends(versions: seq<nat>, held: Option<nat>) {
    && (forall i, j :: 0 <= i < j < |versions| ==> versions[i] < versions[j])
    && (versions != [] ==> held == Some(versions[|versions| - 1]))
  }

  /** The loop remembers the commit of version `held`, one the ref was at no later than `until`. */
  ghost predicate Remembers(remote: Remote, seen: Option<Id>, held: Option<nat>, until: nat) {
    match held
    case None => seen == None
    case Some(version) =>
      && seen == Some(remote.commit(version))
      && exists t :: 0 <= t <= until && t < |remote.tips| && remote.tips[t] == version
  }

  /** What a tick adds to the versions delivered, and the version the caller has after it. */
  function Added(before: State, after: State, remote: Remote, at: At): (r: seq<nat>) {
    if |after.delivered| > |before.delivered| && at.read < |remote.tips| then [remote.tips[at.read]] else []
  }

  function HeldAfter(before: State, after: State, remote: Remote, at: At, held: Option<nat>): (r: Option<nat>) {
    if Added(before, after, remote, at) != [] then Some(remote.tips[at.read])
    else if before.seen.None? && after.seen.Some? && at.check < |remote.tips| then Some(remote.tips[at.check])
    else held
  }

  function Versions(u: Universe, source: Source, remote: Remote, disk: Disk, ticks: seq<Tick>,
                    at: seq<At>): (r: seq<nat>)
    requires |at| == |ticks|
  {
    if ticks == [] then []
    else
      var n := |ticks| - 1;
      Versions(u, source, remote, disk, ticks[..n], at[..n])
      + Added(Run(u, source, disk, ticks[..n]), Run(u, source, disk, ticks), remote, at[n])
  }

  function Held(u: Universe, source: Source, remote: Remote, disk: Disk, ticks: seq<Tick>,
                at: seq<At>): (r: Option<nat>)
    requires |at| == |ticks|
  {
    if ticks == [] then None
    else
      var n := |ticks| - 1;
      HeldAfter(Run(u, source, disk, ticks[..n]), Run(u, source, disk, ticks), remote, at[n],
                Held(u, source, remote, disk, ticks[..n], at[..n]))
  }

  /** Where a run stands: the caller has had whole versions, in order, up to `held`. */
  ghost predicate Stands(u: Universe, source: Source, remote: Remote, state: State, versions: seq<nat>,
                         held: Option<nat>, until: nat) {
    && AreVersions(u, source, remote, state.delivered, versions)
    && Ascends(versions, held)
    && Remembers(remote, state.seen, held, until)
  }

  /** The tick's check was answered and, where the ref had moved, so was its read, with something to deliver. */
  predicate Answered(state: State, check: Stage<Found>, after: State) {
    && check.result.Ok?
    && (state.seen in {None, Some(check.result.value.commit)} || |after.delivered| > |state.delivered|)
  }

  // ---- The guarantees

  /**
   The whole of what a caller gets, whatever becomes of the cache. Each delivery is the documents of
   one commit, all from its one tree and exactly what a fresh transfer of it holds; commits come in
   the order the ref took them and none twice, so a push landing between the check and the read is
   delivered once; and after a tick that was answered, the version the caller has is at least the one
   the check saw.
   */
  lemma {:induction false} DeliversWholeCommits(u: Universe, source: Source, remote: Remote, disk: Disk,
                                                ticks: seq<Tick>, at: seq<At>)
    requires Growing(remote) && HonestRun(u, source, remote, disk, ticks, at)
    ensures Stands(u, source, remote, Run(u, source, disk, ticks), Versions(u, source, remote, disk, ticks, at),
                   Held(u, source, remote, disk, ticks, at), Until(at))
    ensures var n := |ticks| - 1;
            ticks != [] && Run(u, source, disk, ticks[..n]).ending.Running? ==>
              var before := Run(u, source, disk, ticks[..n]);
              Answered(before, Check(u, source, before, ticks[n]), Run(u, source, disk, ticks)) ==>
                var held := Held(u, source, remote, disk, ticks, at);
                held.Some? && at[n].check < |remote.tips| && remote.tips[at[n].check] <= held.value
  {
    if ticks != [] {
      var n := |ticks| - 1;
      DeliversWholeCommits(u, source, remote, disk, ticks[..n], at[..n]);
      StepStands(u, source, remote, Run(u, source, disk, ticks[..n]), ticks[n], at[n],
                 Versions(u, source, remote, disk, ticks[..n], at[..n]),
                 Held(u, source, remote, disk, ticks[..n], at[..n]), Until(at[..n]));
    }
  }

  lemma StepStands(u: Universe, source: Source, remote: Remote, state: State, tick: Tick, at: At,
                   versions: seq<nat>, held: Option<nat>, earlier: nat)
    requires Growing(remote) && HonestTick(u, source, remote, state.disk, tick, at) && earlier <= at.check
    requires Stands(u, source, remote, state, versions, held, earlier)
    ensures var after := Step(u, source, state, tick);
            var now := HeldAfter(state, after, remote, at, held);
            && Stands(u, source, remote, after, versions + Added(state, after, remote, at), now, at.read)
            && (state.ending.Running? && Answered(state, Check(u, source, state, tick), after) ==>
                  now.Some? && remote.tips[at.check] <= now.value)
  {
    var check, read := Check(u, source, state, tick), Read(u, source, state, tick);
    if read.result.Ok? {
      AttemptReadsFresh(u, source, check.disk, tick.read);
    }
    if state.ending.Running? {
      DecideStands(u, source, remote, state, check, read, at, versions, held, earlier);
    } else {
      Stays(u, source, remote, state, at, versions, held, earlier);
    }
  }

  /** An ended watch stands where it stood. */
  lemma Stays(u: Universe, source: Source, remote: Remote, state: State, at: At,
              versions: seq<nat>, held: Option<nat>, earlier: nat)
    requires Stands(u, source, remote, state, versions, held, earlier) && earlier <= at.read
    ensures Stands(u, source, remote, state, versions + Added(state, state, remote, at),
                   HeldAfter(state, state, remote, at, held), at.read)
  {
    assert versions + [] == versions;
  }

  /** What the two fetches of a tick may answer: where the ref was, and for the read the whole commit. */
  ghost predicate Truthful(u: Universe, source: Source, remote: Remote, check: Stage<Found>, read: Stage<Found>,
                           at: At) {
    && at.check <= at.read < |remote.tips|
    && (check.result.Ok? ==> check.result.value.commit == remote.commit(remote.tips[at.check]))
    && (read.result.Ok? ==>
          && read.result.value.commit == remote.commit(remote.tips[at.read])
          && Holds(u, source.config.asked, read.result.value.commit, read.result.value.documents))
  }

  lemma DecideStands(u: Universe, source: Source, remote: Remote, state: State, check: Stage<Found>, read: Stage<Found>,
                     at: At, versions: seq<nat>, held: Option<nat>, earlier: nat)
    requires Growing(remote) && Truthful(u, source, remote, check, read, at) && earlier <= at.check
    requires Stands(u, source, remote, state, versions, held, earlier)
    ensures var after := Decide(source, state, check, read);
            var now := HeldAfter(state, after, remote, at, held);
            && Stands(u, source, remote, after, versions + Added(state, after, remote, at), now, at.read)
            && (Answered(state, check, after) ==> now.Some? && remote.tips[at.check] <= now.value)
  {
    DecideDelivers(u, source, remote, state, check, read, at, versions);
    DecideAdvances(source, remote, state, check, read, at, versions, held, earlier);
  }

  lemma DecideDelivers(u: Universe, source: Source, remote: Remote, state: State, check: Stage<Found>,
                       read: Stage<Found>, at: At, versions: seq<nat>)
    requires Truthful(u, source, remote, check, read, at)
    requires AreVersions(u, source, remote, state.delivered, versions)
    ensures var after := Decide(source, state, check, read);
            AreVersions(u, source, remote, after.delivered, versions + Added(state, after, remote, at))
  {
    var after := Decide(source, state, check, read);
    if |after.delivered| > |state.delivered| {
      var delivery := after.delivered[|state.delivered|];
      assert after.delivered == state.delivered + [delivery];
      assert IsVersion(u, source, remote, delivery, remote.tips[at.read]);
    } else {
      assert versions + [] == versions && after.delivered == state.delivered;
    }
  }

  lemma DecideAdvances(source: Source, remote: Remote, state: State, check: Stage<Found>, read: Stage<Found>,
                       at: At, versions: seq<nat>, held: Option<nat>, earlier: nat)
    requires Growing(remote) && earlier <= at.check <= at.read < |remote.tips|
    requires check.result.Ok? ==> check.result.value.commit == remote.commit(remote.tips[at.check])
    requires read.result.Ok? ==> read.result.value.commit == remote.commit(remote.tips[at.read])
    requires Ascends(versions, held) && Remembers(remote, state.seen, held, earlier)
    ensures var after := Decide(source, state, check, read);
            var now := HeldAfter(state, after, remote, at, held);
            && Ascends(versions + Added(state, after, remote, at), now)
            && Remembers(remote, after.seen, now, at.read)
            && (Answered(state, check, after) ==> now.Some? && remote.tips[at.check] <= now.value)
  {
    var after := Decide(source, state, check, read);
    if |after.delivered| > |state.delivered| {
      assert held.value < remote.tips[at.check] <= remote.tips[at.read];
    } else {
      assert versions + [] == versions;
    }
  }

  /** A read that failed, or whose documents do not merge, leaves the move to be read by a later tick. */
  lemma FailedReadIsRetried(source: Source, remote: Remote, state: State, check: Stage<Found>, read: Stage<Found>,
                            at: At, held: nat, earlier: nat, check': Stage<Found>, read': Stage<Found>, at': At)
    requires Growing(remote) && earlier <= at.check <= at.read <= at'.check < |remote.tips|
    requires state.ending.Running? && Remembers(remote, state.seen, Some(held), earlier)
    requires check.result.Ok? && check.result.value.commit == remote.commit(remote.tips[at.check])
    requires check'.result.Ok? && check'.result.value.commit == remote.commit(remote.tips[at'.check])
    requires held != remote.tips[at.check] && Decide(source, state, check, read).delivered == state.delivered
    ensures var failed := Decide(source, state, check, read);
            && failed.ending.Running? && failed.seen == state.seen
            && (read'.result.Ok? && Merged(read'.result.value.documents, source.fold).Some? ==>
                  |Decide(source, failed, check', read').delivered| == |state.delivered| + 1)
  {
    assert held < remote.tips[at.check] <= remote.tips[at'.check];
  }

  // ---- What one tick does

  /**
   The fetch a check or a read comes down to: the first, or, where the host refused a credential that
   can be replaced, the second, from whatever directory the first one left.
   */
  predicate ComesTo(u: Universe, source: Source, disk: Disk, answers: Try, want: bool, outcome: Stage<Found>) {
    var first := Once(u, source.config, disk, answers.first, want);
    if source.renewable && first.result == Err(Refused)
    then outcome == Once(u, source.config, first.disk, answers.second, want)
    else outcome == first
  }

  /** What the loop keeps when it moves on without a document. */
  predicate OnlyDisk(before: State, after: State, disk: Disk) {
    after == before.(disk := disk)
  }

  /** A read that answered: remembered as the last, and delivered as the one document it merges to. */
  predicate Reads(source: Source, before: State, after: State, found: Found) {
    && after.last == Some(found.commit)
    && match Merged(found.documents, source.fold)
       case None => after == before.(disk := after.disk, last := after.last)
       case Some(text) =>
         && after.seen == Some(found.commit)
         && after.delivered == before.delivered + [Delivery(found.commit, text)]
         && after.ending == if source.accepts(|before.delivered|) then Running else GitWatch.CallbackRefused
  }

  /**
   One tick of a running watch, whatever is answered in it: a check that fails changes nothing but the
   directory, unless it ends a watch whose credential cannot be replaced; the first answer is
   remembered and not delivered; a ref that has not moved is let be; and one that has is read, and the
   commit the read names, not the check, is what is remembered and delivered.
   */
  lemma TickIs(u: Universe, source: Source, state: State, tick: Tick, check: Stage<Found>, read: Stage<Found>)
    requires state.ending.Running?
    requires ComesTo(u, source, state.disk, tick.check, false, check)
    requires ComesTo(u, source, check.disk, tick.read, true, read)
    ensures var after := Step(u, source, state, tick);
            match check.result
            case Err(failure) =>
              if !source.renewable && failure in {Refused, Other(true)}
              then OnlyDisk(state.(ending := CredentialRefused), after, check.disk)
              else OnlyDisk(state, after, check.disk)
            case Ok(current) =>
              if state.seen == None then OnlyDisk(state.(seen := Some(current.commit)), after, check.disk)
              else if state.seen == Some(current.commit) then OnlyDisk(state, after, check.disk)
              else if read.result.Err? then OnlyDisk(state, after, read.disk)
              else after.disk == read.disk && Reads(source, state, after, read.result.value)
  {
  }

  /**
   An expired token costs a renewable source nothing: where the host refuses the credential of the
   check, of the read, or of both, and takes the one that replaces it, the move is delivered in the
   same tick.
   */
  lemma RefusedOnceStillDelivers(u: Universe, source: Source, disk: Disk, ticks: seq<Tick>, check: Stage<Found>,
                                 read: Stage<Found>, text: string)
    requires ticks != [] && source.renewable
    requires var before, tick := Run(u, source, disk, ticks[..|ticks| - 1]), ticks[|ticks| - 1];
             var first := Once(u, source.config, before.disk, tick.check.first, false);
             && before.ending.Running? && before.seen.Some?
             && check == (if first.result == Err(Refused)
                          then Once(u, source.config, first.disk, tick.check.second, false) else first)
             && check.result.Ok? && before.seen != Some(check.result.value.commit)
    requires var tick := ticks[|ticks| - 1];
             var first := Once(u, source.config, check.disk, tick.read.first, true);
             && read == (if first.result == Err(Refused)
                         then Once(u, source.config, first.disk, tick.read.second, true) else first)
             && read.result.Ok? && Merged(read.result.value.documents, source.fold) == Some(text)
    ensures var before, after := Run(u, source, disk, ticks[..|ticks| - 1]), Run(u, source, disk, ticks);
            && after.delivered == before.delivered + [Delivery(read.result.value.commit, text)]
            && after.seen == Some(read.result.value.commit)
            && Holds(u, source.config.asked, read.result.value.commit, read.result.value.documents)
  {
    var before, tick := Run(u, source, disk, ticks[..|ticks| - 1]), ticks[|ticks| - 1];
    TickIs(u, source, before, tick, check, read);
    AttemptReadsFresh(u, source, check.disk, tick.read);
  }

  /** A second fetch is made only for a refusal, and only with a credential that can be replaced. */
  lemma SecondIsNotAsked(u: Universe, source: Source, state: State, tick: Tick, other: Turn)
    ensures !source.renewable || Once(u, source.config, state.disk, tick.check.first, false).result != Err(Refused) ==>
              Step(u, source, state, tick) == Step(u, source, state, tick.(check := tick.check.(second := other)))
    ensures var check := Check(u, source, state, tick);
            !source.renewable || Once(u, source.config, check.disk, tick.read.first, true).result != Err(Refused) ==>
              Step(u, source, state, tick) == Step(u, source, state, tick.(read := tick.read.(second := other)))
  {
  }

  // ---- How a watch ends

  /** Some check told a watch still running that its one credential is no good. */
  predicate EverCondemned(u: Universe, source: Source, disk: Disk, ticks: seq<Tick>) {
    ticks != [] &&
    var n := |ticks| - 1;
    var before := Run(u, source, disk, ticks[..n]);
    || EverCondemned(u, source, disk, ticks[..n])
    || (before.ending.Running? && Condemned(source, Once(u, source.config, before.disk, ticks[n].check.first, false)))
  }

  /** The one fetch such a check makes failed for its credential. */
  predicate Condemned(source: Source, fetched: Stage<Found>) {
    !source.renewable && fetched.result.Err? && IsAuth(fetched.result.error)
  }

  /** The callback took every document but, if it ended the watch, the last. */
  predicate CallbackDecides(source: Source, state: State) {
    && (state.ending.CallbackRefused? <==> state.delivered != [] && !source.accepts(|state.delivered| - 1))
    && forall i :: 0 <= i < |state.delivered| - 1 ==> source.accepts(i)
  }

  lemma DecideEnds(source: Source, state: State, check: Stage<Found>, read: Stage<Found>)
    requires state.ending.Running? && CallbackDecides(source, state)
    ensures CallbackDecides(source, Decide(source, state, check, read))
    ensures Decide(source, state, check, read).ending.CredentialRefused? <==> Condemned(source, check)
  {
  }

  /**
   What ends the watch: the callback's refusal, or the host's refusal, at a check, of a credential
   that cannot be replaced. A credential from a closure never ends it, however often it is refused.
   */
  lemma {:induction false} EndsOnlyFor(u: Universe, source: Source, disk: Disk, ticks: seq<Tick>)
    ensures CallbackDecides(source, Run(u, source, disk, ticks))
    ensures Run(u, source, disk, ticks).ending.CredentialRefused? <==> EverCondemned(u, source, disk, ticks)
  {
    if ticks != [] {
      var n := |ticks| - 1;
      var before := Run(u, source, disk, ticks[..n]);
      EndsOnlyFor(u, source, disk, ticks[..n]);
      if before.ending.Running? {
        DecideEnds(source, before, Check(u, source, before, ticks[n]), Read(u, source, before, ticks[n]));
      }
    }
  }

  lemma {:induction false} RenewableNeverEndsOnRefusal(u: Universe, source: Source, disk: Disk, ticks: seq<Tick>)
    requires source.renewable
    ensures !Run(u, source, disk, ticks).ending.CredentialRefused?
  {
    if ticks != [] {
      var n := |ticks| - 1;
      RenewableNeverEndsOnRefusal(u, source, disk, ticks[..n]);
    }
  }

  // ---- A cache that stays whole

  /** Packs are complete, and a compaction that stops leaves no commit without its tree. */
  ghost predicate KindTurn(u: Universe, source: Source, disk: Disk, turn: Turn) {
    && Honest(u, source.config, disk, turn)
    && (StopsHalfway(source.config, disk, turn) ==> Closed(u, turn.removal.left.held))
  }

  ghost predicate KindTry(u: Universe, source: Source, disk: Disk, answers: Try, want: bool) {
    && KindTurn(u, source, disk, answers.first)
    && KindTurn(u, source, Once(u, source.config, disk, answers.first, want).disk, answers.second)
  }

  ghost predicate KindRun(u: Universe, source: Source, disk: Disk, ticks: seq<Tick>) {
    ticks == [] ||
    var n := |ticks| - 1;
    var state := Run(u, source, disk, ticks[..n]);
    && KindRun(u, source, disk, ticks[..n])
    && KindTry(u, source, state.disk, ticks[n].check, false)
    && KindTry(u, source, Check(u, source, state, ticks[n]).disk, ticks[n].read, true)
  }

  lemma AttemptStaysClosed(u: Universe, source: Source, disk: Disk, answers: Try, want: bool)
    requires Closed(u, disk.held) && KindTry(u, source, disk, answers, want)
    ensures Closed(u, Attempt(u, source, disk, answers, want).disk.held)
  {
    KeepsClosed(u, source.config, disk, answers.first, want);
    KeepsClosed(u, source.config, Once(u, source.config, disk, answers.first, want).disk, answers.second, want);
  }

  lemma DecideDisk(source: Source, state: State, check: Stage<Found>, read: Stage<Found>)
    ensures var disk := Decide(source, state, check, read).disk; disk == check.disk || disk == read.disk
  {
  }

  /** Under kind answers a watch leaves the cache closed, so that no fetch fails for what it lacks. */
  lemma {:induction false} WatchStaysClosed(u: Universe, source: Source, disk: Disk, ticks: seq<Tick>)
    requires Closed(u, disk.held) && KindRun(u, source, disk, ticks)
    ensures Closed(u, Run(u, source, disk, ticks).disk.held)
  {
    if ticks != [] {
      var n := |ticks| - 1;
      var state := Run(u, source, disk, ticks[..n]);
      WatchStaysClosed(u, source, disk, ticks[..n]);
      AttemptStaysClosed(u, source, state.disk, ticks[n].check, false);
      AttemptStaysClosed(u, source, Check(u, source, state, ticks[n]).disk, ticks[n].read, true);
      if state.ending.Running? {
        DecideDisk(source, state, Check(u, source, state, ticks[n]), Read(u, source, state, ticks[n]));
      }
    }
  }
}
