/** What the Consul watch loop guarantees over every run. */
module ConsulGuarantees {
  import opened ConsulWatch
  import opened Documents
  import opened Wrappers

  /** Every reply was one the loop really asked for. */
  predicate Taken(config: Config, replies: seq<Reply>) {
    forall i :: 0 <= i < |replies| ==> Run(config, replies[..i]).ending.Running?
  }

  lemma TakenPrefix(config: Config, replies: seq<Reply>)
    requires Taken(config, replies) && replies != []
    ensures Taken(config, replies[..|replies| - 1])
    ensures Run(config, replies[..|replies| - 1]).ending.Running?
  {
    var before := replies[..|replies| - 1];
    forall i | 0 <= i < |before| ensures Run(config, before[..i]).ending.Running? {
      assert before[..i] == replies[..i];
    }
    assert replies[..|replies| - 1] == before;
  }

  // ---- The loop as a function of the documents alone

  function FoldedOf(config: Config, reply: Reply): (r: Folded) {
    if reply.Answered? then WatchedDocument(config, reply.entries) else NoDocument
  }

  /** The documents the agent answered with, in order. */
  function Answers(config: Config, replies: seq<Reply>): (r: seq<string>) {
    if replies == [] then
      []
    else
      var last := FoldedOf(config, replies[|replies| - 1]);
      Answers(config, replies[..|replies| - 1]) + (if last.Document? then [last.text] else [])
  }

  /** `s` with each element equal to its predecessor left out. */
  function Collapse(s: seq<string>): (r: seq<string>)
    ensures s != [] ==> r != [] && r[|r| - 1] == s[|s| - 1]
  {
    if |s| <= 1 then s
    else if s[|s| - 1] == s[|s| - 2] then Collapse(s[..|s| - 1])
    else Collapse(s[..|s| - 1]) + [s[|s| - 1]]
  }

  function Texts(delivered: seq<Delivery>): (r: seq<string>)
    ensures |r| == |delivered|
    ensures forall i :: 0 <= i < |r| ==> r[i] == delivered[i].text
  {
    if delivered == [] then [] else Texts(delivered[..|delivered| - 1]) + [delivered[|delivered| - 1].text]
  }

  lemma TextsAppend(delivered: seq<Delivery>, next: Delivery)
    ensures Texts(delivered + [next]) == Texts(delivered) + [next.text]
  {
    assert (delivered + [next])[..|delivered|] == delivered;
  }

  /** What the loop compares with and has delivered, after those answers. */
  ghost predicate Matches(state: State, answers: seq<string>) {
    if answers == [] then
      state.priming && state.last == None && state.delivered == []
    else
      && !state.priming
      && state.last == Some(answers[|answers| - 1])
      && Texts(state.delivered) == Collapse(answers)[1..]
  }

  lemma StepMatches(config: Config, state: State, reply: Reply, answers: seq<string>)
    requires state.ending.Running? && Matches(state, answers)
    ensures var folded := FoldedOf(config, reply);
            Matches(Step(config, state, reply), if folded.Document? then answers + [folded.text] else answers)
  {
    var folded := FoldedOf(config, reply);
    if folded.Document? {
      DocumentMatches(config, state, Step(config, state, reply), answers, folded.text);
    }
  }

  /** One more document: kept to compare with, and delivered unless it is the first or a repeat. */
  lemma DocumentMatches(config: Config, state: State, after: State, answers: seq<string>, text: string)
    requires Matches(state, answers)
    requires !after.priming && after.last == Some(text)
    requires if state.priming || state.last == Some(text) then after.delivered == state.delivered
             else after.delivered == state.delivered + [Delivery(text, after.index)]
    ensures Matches(after, answers + [text])
  {
    var longer := answers + [text];
    assert longer[..|longer| - 1] == answers;
    TextsAppend(state.delivered, Delivery(text, after.index));
    if answers != [] && text != answers[|answers| - 1] {
      assert Collapse(longer) == Collapse(answers) + [text];
    }
  }

  /**
   Whatever indexes, failures and empty answers come in between, the deliveries are the answered
   documents with repeats in a row left out and the first left out: the first only primes.
   */
  lemma {:induction false} DeliversCollapsedAnswers(config: Config, replies: seq<Reply>)
    requires Taken(config, replies) && Start(config).ending.Running?
    ensures Matches(Run(config, replies), Answers(config, replies))
  {
    if replies != [] {
      var before := replies[..|replies| - 1];
      TakenPrefix(config, replies);
      DeliversCollapsedAnswers(config, before);
      StepMatches(config, Run(config, before), replies[|replies| - 1], Answers(config, before));
      assert Answers(config, before) + [] == Answers(config, before);
    }
  }

  // ---- The index

  /** The index of the latest answer, by the header or by the query it answered. */
  function LatestIndex(config: Config, replies: seq<Reply>): (r: nat) {
    if replies == [] then 0
    else if replies[|replies| - 1].Answered?
    then if replies[|replies| - 1].index.Some? then replies[|replies| - 1].index.value
         else Run(config, replies[..|replies| - 1]).index
    else LatestIndex(config, replies[..|replies| - 1])
  }

  /** The index a query carries is the latest answered or zero, and it goes down only to zero. */
  lemma {:induction false} IndexOnlyResets(config: Config, replies: seq<Reply>)
    requires Taken(config, replies)
    ensures Run(config, replies).index in {0, LatestIndex(config, replies)}
    ensures replies != [] && Run(config, replies).index < Run(config, replies[..|replies| - 1]).index ==>
              && Run(config, replies).index == 0
              && LatestIndex(config, replies) < Run(config, replies[..|replies| - 1]).index
  {
    if replies != [] {
      TakenPrefix(config, replies);
      IndexOnlyResets(config, replies[..|replies| - 1]);
    }
  }

  /**
   The index reply by reply: a failed query leaves it, an answer sets it to the one it names, or to
   zero if that is lower than the one carried; and a delivery carries the index the next query will.
   */
  lemma IndexIs(config: Config, replies: seq<Reply>)
    requires Taken(config, replies) && replies != []
    ensures var before, after := Run(config, replies[..|replies| - 1]), Run(config, replies);
            && (match replies[|replies| - 1]
                case QueryFailed => after.index == before.index
                case Answered(None, _) => after.index == before.index
                case Answered(Some(named), _) => after.index == if named < before.index then 0 else named)
            && before.delivered <= after.delivered
            && (|after.delivered| > |before.delivered| ==>
                  after.delivered[|after.delivered| - 1].index == after.index)
  {
    TakenPrefix(config, replies);
  }

  // ---- How a watch ends

  /**
   A watch begins exactly for a known format and keys other than a list; it ends as the callback's
   refusal exactly when the callback refused the last document it was handed; and the callback had
   taken every one before.
   */
  lemma {:induction false} EndsOnlyFor(config: Config, replies: seq<Reply>)
    ensures CallbackDecides(config, Run(config, replies))
    ensures var state := Run(config, replies);
            && (state.ending.AtDoor? <==> !config.formatKnown || config.keys.Several?)
            && (state.ending.AtDoor? ==> state == State(0, None, true, [], 0, AtDoor))
  {
    if replies != [] {
      EndsOnlyFor(config, replies[..|replies| - 1]);
      StepDecides(config, Run(config, replies[..|replies| - 1]), replies[|replies| - 1]);
    }
  }

  predicate CallbackDecides(config: Config, state: State) {
    && (state.ending.CallbackRefused? <==> state.delivered != [] && !config.accepts(|state.delivered| - 1))
    && forall i :: 0 <= i < |state.delivered| - 1 ==> config.accepts(i)
  }

  lemma StepDecides(config: Config, state: State, reply: Reply)
    requires CallbackDecides(config, state)
    ensures CallbackDecides(config, Step(config, state, reply))
    ensures Step(config, state, reply).ending.AtDoor? <==> state.ending.AtDoor?
    ensures state.ending.AtDoor? ==> Step(config, state, reply) == state
  {
  }

  // ---- Reports

  function FailedQueries(replies: seq<Reply>): (r: nat) {
    if replies == [] then 0
    else FailedQueries(replies[..|replies| - 1]) + (if replies[|replies| - 1].QueryFailed? then 1 else 0)
  }

  function EmptyAnswers(config: Config, replies: seq<Reply>): (r: nat) {
    if replies == [] then 0
    else EmptyAnswers(config, replies[..|replies| - 1])
         + (if replies[|replies| - 1].Answered? && FoldedOf(config, replies[|replies| - 1]).NoDocument? then 1 else 0)
  }

  /** With a sink: one report for each failed query, each empty answer, and the fold that ends a watch. */
  lemma {:induction false} ReportsAddUp(config: Config, replies: seq<Reply>)
    requires Taken(config, replies) && Start(config).ending.Running?
    ensures var state := Run(config, replies);
            && state.reports == FailedQueries(replies) + EmptyAnswers(config, replies)
                                + (if state.ending.NotFoldable? then 1 else 0)
            && (replies != [] ==>
                 (state.ending.NotFoldable? <==> FoldedOf(config, replies[|replies| - 1]).Unfoldable?)
                 && (state.ending.CallbackRefused? ==> state.delivered != [] && !config.accepts(|state.delivered| - 1)))
  {
    if replies != [] {
      TakenPrefix(config, replies);
      ReportsAddUp(config, replies[..|replies| - 1]);
    }
  }

  /** Under one key nothing the agent answers with can end the watch: only the callback can. */
  lemma {:induction false} OneKeySurvivesEverything(config: Config, replies: seq<Reply>)
    requires config.keys.One? && config.formatKnown
    requires forall n :: config.accepts(n)
    ensures Run(config, replies).ending.Running?
  {
    if replies != [] { OneKeySurvivesEverything(config, replies[..|replies| - 1]); }
  }

  // ---- Nothing is missed

  /** What the agent holds at one moment. */
  datatype Moment = Moment(index: nat, entries: seq<Entry>)

  /** An agent whose index only grows, is never zero, and moves whenever what it holds does. */
  ghost predicate Monotone(agent: seq<Moment>) {
    && (forall s, t :: 0 <= s < t < |agent| ==> agent[s].index <= agent[t].index)
    && (forall s, t :: 0 <= s < t < |agent| && agent[s].index == agent[t].index ==>
          agent[s].entries == agent[t].entries)
    && (forall t :: 0 <= t < |agent| ==> 0 < agent[t].index)
  }

  /** Reply `i` was given at moment `at[i]`, with what the agent held then; its header may be lost. */
  ghost predicate HonestReplies(agent: seq<Moment>, replies: seq<Reply>, at: seq<nat>) {
    && |at| == |replies|
    && (forall i :: 0 <= i < |at| ==> at[i] < |agent|)
    && (forall i, j :: 0 <= i < j < |at| ==> at[i] <= at[j])
    && (forall i :: 0 <= i < |replies| && replies[i].Answered? ==>
         && replies[i].entries == agent[at[i]].entries
         && (replies[i].index.Some? ==> replies[i].index.value == agent[at[i]].index))
  }

  /** When the latest answer was given, if there has been one. */
  function LatestAt(replies: seq<Reply>, at: seq<nat>): (r: Option<nat>)
    requires |at| == |replies|
  {
    if replies == [] then None
    else if replies[|replies| - 1].Answered? then Some(at[|at| - 1])
    else LatestAt(replies[..|replies| - 1], at[..|at| - 1])
  }

  /** The index carried is no later than the latest answer's, whose document is the one compared with. */
  ghost predicate Behind(agent: seq<Moment>, config: Config, state: State, latest: Option<nat>) {
    match latest
    case None => state.index == 0
    case Some(t) =>
      && t < |agent| && state.index <= agent[t].index
      && (WatchedDocument(config, agent[t].entries).Document? && state.ending != AtDoor ==>
            state.last == Some(WatchedDocument(config, agent[t].entries).text))
  }

  lemma StepStaysBehind(agent: seq<Moment>, config: Config, state: State, reply: Reply, latest: Option<nat>, now: nat)
    requires Monotone(agent) && state.ending.Running? && Behind(agent, config, state, latest)
    requires now < |agent| && (latest.Some? ==> latest.value <= now)
    requires reply.Answered? ==> reply.entries == agent[now].entries
    requires reply.Answered? && reply.index.Some? ==> reply.index.value == agent[now].index
    ensures Behind(agent, config, Step(config, state, reply), if reply.Answered? then Some(now) else latest)
  {
    assert latest.Some? ==> agent[latest.value].index <= agent[now].index;
  }

  lemma HonestPrefix(agent: seq<Moment>, replies: seq<Reply>, at: seq<nat>)
    requires HonestReplies(agent, replies, at) && replies != []
    ensures HonestReplies(agent, replies[..|replies| - 1], at[..|at| - 1])
    ensures at[|at| - 1] < |agent|
    ensures var latest := LatestAt(replies[..|replies| - 1], at[..|at| - 1]);
            latest.Some? ==> latest.value <= at[|at| - 1]
    ensures var last := replies[|replies| - 1];
            last.Answered? ==>
              && last.entries == agent[at[|at| - 1]].entries
              && (last.index.Some? ==> last.index.value == agent[at[|at| - 1]].index)
  {
    LatestIsPast(agent, replies[..|replies| - 1], at[..|at| - 1]);
  }

  lemma {:induction false} LatestIsPast(agent: seq<Moment>, replies: seq<Reply>, at: seq<nat>)
    requires HonestReplies(agent, replies, at)
    ensures var latest := LatestAt(replies, at);
            latest.Some? ==> at != [] && latest.value <= at[|at| - 1]
  {
    if replies != [] { LatestIsPast(agent, replies[..|replies| - 1], at[..|at| - 1]); }
  }

  lemma {:induction false} IndexIsBehindLatest(agent: seq<Moment>, config: Config, replies: seq<Reply>, at: seq<nat>)
    requires Monotone(agent) && HonestReplies(agent, replies, at) && Taken(config, replies)
    ensures Behind(agent, config, Run(config, replies), LatestAt(replies, at))
  {
    if replies != [] {
      var n := |replies| - 1;
      TakenPrefix(config, replies);
      HonestPrefix(agent, replies, at);
      IndexIsBehindLatest(agent, config, replies[..n], at[..n]);
      StepStaysBehind(agent, config, Run(config, replies[..n]), replies[n], LatestAt(replies[..n], at[..n]), at[n]);
    }
  }

  /**
   The caller has the document: it was handed it last, or it has been handed nothing and it is what
   the very first query was answered with, the value a caller is taken to start from.
   */
  predicate CallerHas(config: Config, replies: seq<Reply>, text: string) {
    var delivered := Run(config, replies).delivered;
    if delivered != [] then delivered[|delivered| - 1].text == text
    else replies != [] && FoldedOf(config, replies[0]) == Document(text)
  }

  /**
   No answer so far has been delivered, all being alike, and the first query was answered with no
   document or not at all: the first document to come was taken for the one the caller has.
   */
  predicate TakenForPriming(config: Config, replies: seq<Reply>) {
    |Collapse(Answers(config, replies))| <= 1 && (replies == [] || !FoldedOf(config, replies[0]).Document?)
  }

  lemma {:induction false} CollapsedIsAlike(s: seq<string>)
    requires |Collapse(s)| <= 1
    ensures forall i :: 0 <= i < |s| ==> s[i] == s[|s| - 1]
  {
    if |s| > 1 {
      var before := s[..|s| - 1];
      CollapsedIsAlike(before);
      assert s[|s| - 1] == s[|s| - 2];
      assert forall i :: 0 <= i < |before| ==> before[i] == s[i];
    }
  }

  /** The first reply's document is the first answer. */
  lemma {:induction false} FirstAnswer(config: Config, replies: seq<Reply>)
    requires replies != [] && FoldedOf(config, replies[0]).Document?
    ensures Answers(config, replies) != [] && Answers(config, replies)[0] == FoldedOf(config, replies[0]).text
  {
    var before := replies[..|replies| - 1];
    if before != [] {
      FirstAnswer(config, before);
    } else {
      assert Answers(config, before) == [];
    }
  }

  /**
   Whether a caller has the latest document answered: it has, unless the first document ever
   answered was taken for priming and nothing different has come since.
   */
  lemma CallerHasIff(config: Config, replies: seq<Reply>)
    requires Taken(config, replies) && Start(config).ending.Running? && Answers(config, replies) != []
    ensures var answers := Answers(config, replies);
            CallerHas(config, replies, answers[|answers| - 1]) <==> !TakenForPriming(config, replies)
    ensures Run(config, replies).delivered == [] <==> |Collapse(Answers(config, replies))| <= 1
  {
    DeliversCollapsedAnswers(config, replies);
    if Run(config, replies).delivered == [] {
      NothingHanded(config, replies);
    } else {
      LastHanded(config, replies);
    }
  }

  lemma NothingHanded(config: Config, replies: seq<Reply>)
    requires Matches(Run(config, replies), Answers(config, replies)) && Answers(config, replies) != []
    requires Run(config, replies).delivered == []
    ensures var answers := Answers(config, replies);
            && |Collapse(answers)| == 1
            && (CallerHas(config, replies, answers[|answers| - 1]) <==> FoldedOf(config, replies[0]).Document?)
  {
    var answers := Answers(config, replies);
    assert |Collapse(answers)[1..]| == 0;
    CollapsedIsAlike(answers);
    if FoldedOf(config, replies[0]).Document? { FirstAnswer(config, replies); }
  }

  lemma LastHanded(config: Config, replies: seq<Reply>)
    requires Matches(Run(config, replies), Answers(config, replies)) && Answers(config, replies) != []
    requires Run(config, replies).delivered != []
    ensures var answers := Answers(config, replies);
            |Collapse(answers)| > 1 && CallerHas(config, replies, answers[|answers| - 1])
  {
    var answers, delivered := Answers(config, replies), Run(config, replies).delivered;
    assert |Collapse(answers)| == 1 + |delivered|;
    assert Texts(delivered)[|delivered| - 1] == Collapse(answers)[|delivered|];
  }

  /**
   Nothing is missed while the agent's index does not go backwards: a query carrying the agent's
   current index, and so parked until it moves, means the document there is the one compared with,
   however many failures, empty answers and lost headers came before. The caller has it, unless it
   was taken for priming.
   */
  lemma ParkedMeansCaughtUp(agent: seq<Moment>, config: Config, replies: seq<Reply>, at: seq<nat>, now: nat)
    requires Monotone(agent) && HonestReplies(agent, replies, at) && Taken(config, replies)
    requires now < |agent| && (at != [] ==> at[|at| - 1] <= now)
    requires Run(config, replies).ending.Running?
    requires Run(config, replies).index == agent[now].index
    requires WatchedDocument(config, agent[now].entries).Document?
    ensures var state, text := Run(config, replies), WatchedDocument(config, agent[now].entries).text;
            && state.last == Some(text)
            && (CallerHas(config, replies, text) <==> !TakenForPriming(config, replies))
            && (state.delivered != [] ==> state.delivered[|state.delivered| - 1].text == text)
  {
    IndexIsBehindLatest(agent, config, replies, at);
    LatestIsPast(agent, replies, at);
    var t := LatestAt(replies, at).value;
    assert agent[t].index == agent[now].index;
    StartedRunning(config, replies);
    DeliversCollapsedAnswers(config, replies);
    CallerHasIff(config, replies);
    var delivered := Run(config, replies).delivered;
    if delivered != [] {
      assert Texts(delivered)[|delivered| - 1] == delivered[|delivered| - 1].text;
    }
  }

  /**
   A key that is not there when the watch starts: the first document ever written to it is taken for
   the one the caller has, and the watch parks on it without having delivered anything.
   */
  lemma FirstWriteIsTakenForPriming(config: Config, key: string, text: string)
    requires config.keys == One(key) && config.formatKnown
    ensures var replies := [QueryFailed, Answered(Some(7), [Entry(Some(key), Decoded(text))])];
            var state := Run(config, replies);
            && state.ending.Running? && state.index == 7 && state.last == Some(text)
            && state.delivered == [] && TakenForPriming(config, replies) && !CallerHas(config, replies, text)
  {
    var entries := [Entry(Some(key), Decoded(text))];
    var first, second := QueryFailed, Answered(Some(7), entries);
    FoldsOneKey(config, entries);
    assert [first, second][..1] == [first] && [first][..0] == [];
    assert Run(config, [first]) == FRESH.(reports := 1);
    assert Answers(config, [first]) == [];
    assert Answers(config, [first, second]) == [text];
  }

  lemma {:induction false} StartedRunning(config: Config, replies: seq<Reply>)
    requires Run(config, replies).ending.Running?
    ensures Start(config).ending.Running?
  {
    if replies != [] { StartedRunning(config, replies[..|replies| - 1]); }
  }

  // ---- What is missed when the index does go backwards

  /** Every answer named the index it was given at. */
  predicate Headed(replies: seq<Reply>) {
    forall i :: 0 <= i < |replies| && replies[i].Answered? ==> replies[i].index.Some?
  }

  /** When the latest answer with a document in it was given. */
  function LatestDocumentAt(config: Config, replies: seq<Reply>, at: seq<nat>): (r: Option<nat>)
    requires |at| == |replies|
  {
    if replies == [] then None
    else if FoldedOf(config, replies[|replies| - 1]).Document? then Some(at[|at| - 1])
    else LatestDocumentAt(config, replies[..|replies| - 1], at[..|at| - 1])
  }

  /** What the loop carries: the latest answer's index or zero, and the latest document answered. */
  ghost predicate Carries(agent: seq<Moment>, config: Config, state: State, latest: Option<nat>,
                          documented: Option<nat>) {
    && (if latest.None? then state.index == 0
        else latest.value < |agent| && state.index in {0, agent[latest.value].index})
    && (if documented.None? then state.last == None
        else documented.value < |agent| && WatchedDocument(config, agent[documented.value].entries).Document?
             && state.last == Some(WatchedDocument(config, agent[documented.value].entries).text))
  }

  lemma StepCarries(agent: seq<Moment>, config: Config, state: State, reply: Reply, latest: Option<nat>,
                    documented: Option<nat>, now: nat)
    requires state.ending.Running? && Carries(agent, config, state, latest, documented) && now < |agent|
    requires reply.Answered? ==> reply.entries == agent[now].entries && reply.index == Some(agent[now].index)
    ensures Carries(agent, config, Step(config, state, reply), if reply.Answered? then Some(now) else latest,
                    if FoldedOf(config, reply).Document? then Some(now) else documented)
  {
  }

  lemma {:induction false} RunCarries(agent: seq<Moment>, config: Config, replies: seq<Reply>, at: seq<nat>)
    requires HonestReplies(agent, replies, at) && Headed(replies) && Taken(config, replies)
    ensures Carries(agent, config, Run(config, replies), LatestAt(replies, at), LatestDocumentAt(config, replies, at))
  {
    if replies != [] {
      var n := |replies| - 1;
      TakenPrefix(config, replies);
      HonestPrefix(agent, replies, at);
      RunCarries(agent, config, replies[..n], at[..n]);
      StepCarries(agent, config, Run(config, replies[..n]), replies[n],
                  LatestAt(replies[..n], at[..n]), LatestDocumentAt(config, replies[..n], at[..n]), at[n]);
    }
  }

  /**
   Whatever the agent's index does: a query parked at the agent's current index carries the index of
   the latest answer, so the agent is at that index again or still, and the change it sleeps through
   is one exactly when what the agent holds folds differently from the latest document answered.
   */
  lemma ParkedMissesIff(agent: seq<Moment>, config: Config, replies: seq<Reply>, at: seq<nat>, now: nat)
    requires HonestReplies(agent, replies, at) && Headed(replies) && Taken(config, replies)
    requires now < |agent| && 0 < agent[now].index && Run(config, replies).index == agent[now].index
    requires WatchedDocument(config, agent[now].entries).Document?
    ensures var latest, documented := LatestAt(replies, at), LatestDocumentAt(config, replies, at);
            && latest.Some? && latest.value < |agent| && agent[latest.value].index == agent[now].index
            && (documented.Some? ==> documented.value < |agent|)
            && (Run(config, replies).last != Some(WatchedDocument(config, agent[now].entries).text) <==>
                  || documented.None?
                  || WatchedDocument(config, agent[documented.value].entries)
                     != WatchedDocument(config, agent[now].entries))
  {
    RunCarries(agent, config, replies, at);
  }

  // ---- What one answer folds into

  /** Only slashes are trimmed, only from the front, and all that are there. */
  lemma {:induction false} TrimsLeadingSlashes(s: string)
    ensures var trimmed := TrimSlashes(s);
            && |trimmed| <= |s| && s[|s| - |trimmed|..] == trimmed
            && (forall i :: 0 <= i < |s| - |trimmed| ==> s[i] == '/')
            && (trimmed != "" ==> trimmed[0] != '/')
  {
    if s != "" && s[0] == '/' {
      TrimsLeadingSlashes(s[1..]);
      assert forall i :: 0 < i < |s| ==> s[i] == s[1..][i - 1];
    }
  }

  /** The key an entry of a prefix names; one that names none is as if it named the empty key. */
  function NameOf(entry: Entry): (r: string) {
    match entry.key
    case Some(key) => key
    case None => ""
  }

  /** Consul's folders are keys whose last character is a slash. */
  predicate IsFolder(key: string) {
    key != "" && key[|key| - 1..] == "/"
  }

  /** An entry of a prefix that can be used: it is under the prefix, and a folder or text. */
  predicate IsUsable(keys: Keys, entry: Entry)
    requires keys.Prefix?
  {
    && TrimSlashes(keys.prefix) <= NameOf(entry)
    && (IsFolder(NameOf(entry)) || entry.value.Decoded?)
  }

  predicate AllUsable(keys: Keys, entries: seq<Entry>)
    requires keys.Prefix?
  {
    forall i :: 0 <= i < |entries| ==> IsUsable(keys, entries[i])
  }

  /** The entries that are documents, each as its key and text, folders left out. */
  function DocumentsOf(entries: seq<Entry>): (r: seq<Pair>) {
    if entries == [] then [] else DocumentOf(entries[0]) + DocumentsOf(entries[1..])
  }

  function DocumentOf(entry: Entry): (r: seq<Pair>) {
    var key := NameOf(entry);
    if !IsFolder(key) && entry.value.Decoded? then [Pair(key, entry.value.text)] else []
  }

  lemma {:induction false} DocumentsAppend(a: seq<Entry>, b: seq<Entry>)
    ensures DocumentsOf(a + b) == DocumentsOf(a) + DocumentsOf(b)
  {
    if a == [] {
      assert a + b == b;
    } else {
      assert (a + b)[0] == a[0] && (a + b)[1..] == a[1..] + b;
      DocumentsAppend(a[1..], b);
    }
  }

  lemma OneIsDocument(keys: Keys, entry: Entry)
    requires keys.Prefix?
    ensures PairOf(keys, entry, None) == if IsUsable(keys, entry) then Some(DocumentOf(entry)) else None
  {
  }

  lemma {:induction false} PairsAreDocuments(keys: Keys, entries: seq<Entry>)
    requires keys.Prefix?
    ensures PairsFrom(keys, entries, None) == if AllUsable(keys, entries) then Some(DocumentsOf(entries)) else None
  {
    if entries != [] {
      var before, last := entries[..|entries| - 1], entries[|entries| - 1];
      PairsAreDocuments(keys, before);
      DocumentsAppend(before, [last]);
      assert entries == before + [last] && [last][1..] == [];
      assert DocumentsOf([last]) == DocumentOf(last) by {
        assert DocumentOf(last) + [] == DocumentOf(last);
      }
      assert AllUsable(keys, entries) <==> AllUsable(keys, before) && IsUsable(keys, last) by {
        assert forall i :: 0 <= i < |before| ==> before[i] == entries[i];
      }
      OneIsDocument(keys, last);
    }
  }

  lemma {:induction false} OnePairEach(key: string, entries: seq<Entry>)
    ensures var pairs := PairsFrom(One(key), entries, Some(key));
            && (pairs.Some? <==> forall i :: 0 <= i < |entries| ==> entries[i].value.Decoded?)
            && (pairs.Some? ==> |pairs.value| == |entries|)
            && (pairs.Some? && entries != [] ==> pairs.value[|entries| - 1].text == entries[|entries| - 1].value.text)
  {
    if entries != [] { OnePairEach(key, entries[..|entries| - 1]); }
  }

  /**
   A prefix answer is used whole or not at all: it ends the watch exactly when it is over the budget,
   holds one entry that cannot be used, or does not merge; it is no document exactly when it is
   usable and holds nothing but folders; and otherwise it is the merge of all its documents, in the
   agent's order.
   */
  lemma FoldsWholeAnswer(config: Config, entries: seq<Entry>)
    requires config.keys.Prefix?
    ensures var folded, documents := WatchedDocument(config, entries), DocumentsOf(entries);
            var usable := |entries| <= 512 && AllUsable(config.keys, entries);
            && (folded.Unfoldable? <==> !usable || (documents != [] && Merged(documents, config.fold).None?))
            && (folded.NoDocument? <==> usable && documents == [])
            && (folded.Document? ==> Merged(documents, config.fold) == Some(folded.text))
  {
    PairsAreDocuments(config.keys, entries);
  }

  /** Under one key every failure is a deleted key, and a document is the text of the last entry. */
  lemma FoldsOneKey(config: Config, entries: seq<Entry>)
    requires config.keys.One?
    ensures WatchedDocument(config, entries) ==
            if entries != [] && forall i :: 0 <= i < |entries| ==> entries[i].value.Decoded?
            then Document(entries[|entries| - 1].value.text) else NoDocument
  {
    OnePairEach(config.keys.key, entries);
  }
}
