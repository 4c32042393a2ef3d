/**
 Finding the keys under a prefix: the glob that is sent, and the cursor that is walked.

 `Matches` is Redis' own pattern matcher, classes and all, so that what the escaped prefix means
 to the server is a theorem rather than a hope.
 */
module RedisScan {
  import opened Documents
  import opened Ordering
  import opened Wrappers

  // ---- What the server makes of a pattern

  /**
   One class, read from just inside its bracket: whether `c` is among its members, and the
   pattern left after it. A class the pattern ends inside of ends with the pattern.
   */
  function Class(pattern: string, c: char): (r: (bool, string))
    ensures |r.1| <= |pattern|
    decreases |pattern|
  {
    if pattern == "" then
      (false, "")
    else if pattern[0] == '\\' && |pattern| >= 2 then
      var (rest, left) := Class(pattern[2..], c);
      (pattern[1] == c || rest, left)
    else if pattern[0] == ']' then
      (false, pattern[1..])
    else if |pattern| >= 3 && pattern[1] == '-' then
      var (rest, left) := Class(pattern[3..], c);
      (pattern[0] <= c <= pattern[2] || pattern[2] <= c <= pattern[0] || rest, left)
    else
      var (rest, left) := Class(pattern[1..], c);
      (pattern[0] == c || rest, left)
  }

  predicate Matches(pattern: string, text: string)
    decreases |pattern| + |text|
  {
    if pattern == "" then
      text == ""
    else if pattern[0] == '*' then
      Matches(pattern[1..], text) || (text != "" && Matches(pattern, text[1..]))
    else if text == "" then
      false
    else if pattern[0] == '?' then
      Matches(pattern[1..], text[1..])
    else if pattern[0] == '[' then
      var negated := |pattern| >= 2 && pattern[1] == '^';
      var (member, rest) := Class(if negated then pattern[2..] else pattern[1..], text[0]);
      member != negated && Matches(rest, text[1..])
    else if pattern[0] == '\\' && |pattern| >= 2 then
      pattern[1] == text[0] && Matches(pattern[2..], text[1..])
    else
      pattern[0] == text[0] && Matches(pattern[1..], text[1..])
  }

  // ---- The escape

  predicate IsSpecial(c: char) {
    c == '\\' || c == '*' || c == '?' || c == '[' || c == ']'
  }

  function EscapedChar(c: char): (r: string) {
    if IsSpecial(c) then ['\\', c] else [c]
  }

  function Escaped(literal: string): (r: string) {
    if literal == "" then "" else EscapedChar(literal[0]) + Escaped(literal[1..])
  }

  lemma {:induction false} EscapedAppend(a: string, b: string)
    ensures Escaped(a + b) == Escaped(a) + Escaped(b)
  {
    if a == "" {
      assert a + b == b;
    } else {
      assert (a + b)[0] == a[0] && (a + b)[1..] == a[1..] + b;
      EscapedAppend(a[1..], b);
    }
  }

  /** `globbed`: a literal, escaped so that the pattern reads it as itself. */
  method Globbed(literal: string) returns (escaped: string)
    ensures escaped == Escaped(literal)
  {
    escaped := "";
    var i := 0;
    while i < |literal|
      invariant 0 <= i <= |literal|
      invariant escaped == Escaped(literal[..i])
    {
      var character := literal[i];
      EscapedAppend(literal[..i], [character]);
      assert literal[..i + 1] == literal[..i] + [character];
      assert Escaped([character]) == EscapedChar(character);
      if character in {'\\', '*', '?', '[', ']'} {
        escaped := escaped + ['\\'];
      }
      escaped := escaped + [character];
      i := i + 1;
    }
    assert literal[..i] == literal;
  }

  lemma {:induction false} StarMatchesAll(text: string)
    ensures Matches("*", text)
  {
    if text != "" { StarMatchesAll(text[1..]); }
  }

  /** The pattern that is sent means the prefix, whatever characters the prefix is made of. */
  lemma {:induction false} PatternMeansPrefix(prefix: string, key: string)
    ensures Matches(Escaped(prefix) + "*", key) <==> prefix <= key
    decreases |prefix|
  {
    var pattern := Escaped(prefix) + "*";
    if prefix == "" {
      assert pattern == "*";
      StarMatchesAll(key);
    } else {
      var rest := Escaped(prefix[1..]) + "*";
      assert pattern == EscapedChar(prefix[0]) + rest;
      assert pattern[|EscapedChar(prefix[0])|..] == rest;
      assert UnderPrefix(key, prefix) <==> key != "" && key[0] == prefix[0] && UnderPrefix(key[1..], prefix[1..]) by {
        assert prefix == [prefix[0]] + prefix[1..];
        if key != "" { assert key == [key[0]] + key[1..]; }
      }
      if key != "" { PatternMeansPrefix(prefix[1..], key[1..]); }
    }
  }

  // ---- The cursor

  const MOST_SCAN_ROUNDS: nat := 1000

  datatype ScanReply = Round(next: nat, batch: seq<string>) | RoundFailed

  datatype ScanError = StoreFailed | NotUnderPrefix | OverBudget | NeverFinished

  function KeysOf(s: seq<string>): (r: set<string>) {
    set key | key in s
  }

  /** The keys the first `n` rounds answered, whatever the order and however often. */
  function Known(replies: seq<ScanReply>, n: nat): (r: set<string>)
    requires n <= |replies|
  {
    if n == 0 then {}
    else Known(replies, n - 1) + (if replies[n - 1].Round? then KeysOf(replies[n - 1].batch) else {})
  }

  /** Round `n` is the first to answer that the cursor is back at zero. */
  ghost predicate FinishesAt(replies: seq<ScanReply>, n: nat) {
    && 0 < n <= |replies|
    && (forall i :: 0 <= i < n ==> replies[i].Round? && (replies[i].next == 0 <==> i == n - 1))
  }

  predicate AllUnder(prefix: string, keys: set<string>) {
    forall key :: key in keys ==> UnderPrefix(key, prefix)
  }

  /** A scan that can be answered: it finishes in time, stays under the prefix, and fits the budget. */
  ghost predicate Scannable(prefix: string, replies: seq<ScanReply>, n: nat) {
    && n <= 1000
    && FinishesAt(replies, n)
    && AllUnder(prefix, Known(replies, n))
    && WithinKeyBudget(|Known(replies, n)|)
  }

  ghost predicate CanScan(prefix: string, replies: seq<ScanReply>) {
    exists n: nat :: Scannable(prefix, replies, n)
  }

  lemma {:induction false} KnownGrows(replies: seq<ScanReply>, i: nat, n: nat)
    requires i <= n <= |replies|
    ensures Known(replies, i) <= Known(replies, n)
    ensures |Known(replies, i)| <= |Known(replies, n)|
  {
    if i < n {
      KnownGrows(replies, i, n - 1);
      Fewer(Known(replies, n - 1), Known(replies, n));
    }
  }

  lemma {:induction false} Fewer(a: set<string>, b: set<string>)
    requires a <= b
    ensures |a| <= |b|
  {
    if a != {} {
      var x :| x in a;
      Fewer(a - {x}, b - {x});
    }
  }

  /** The first `n` rounds answered, and none of them brought the cursor back. */
  ghost predicate Unfinished(replies: seq<ScanReply>, n: nat) {
    n <= |replies| && forall i :: 0 <= i < n ==> replies[i].Round? && replies[i].next != 0
  }

  lemma FinishIsLater(replies: seq<ScanReply>, round: nat, n: nat)
    requires Unfinished(replies, round) && FinishesAt(replies, n)
    ensures round < n <= |replies| && replies[round].Round?
  {
    assert replies[n - 1].next == 0;
  }

  /** Some key of the batch is not under the prefix. */
  predicate Stray(prefix: string, batch: seq<string>) {
    exists key :: key in batch && !UnderPrefix(key, prefix)
  }

  lemma FailedRoundRefuses(prefix: string, replies: seq<ScanReply>, round: nat)
    requires Unfinished(replies, round)
    requires round == |replies| || replies[round].RoundFailed?
    ensures !CanScan(prefix, replies)
  {
    forall n: nat ensures !Scannable(prefix, replies, n) {
      if Scannable(prefix, replies, n) { FinishIsLater(replies, round, n); }
    }
  }

  /** No later round can make up for a stray key. */
  lemma StrayRoundRefuses(prefix: string, replies: seq<ScanReply>, round: nat, n: nat, key: string)
    requires Unfinished(replies, round) && round < |replies| && replies[round].Round?
    requires key in replies[round].batch && !UnderPrefix(key, prefix)
    ensures !Scannable(prefix, replies, n)
  {
    if Scannable(prefix, replies, n) {
      FinishIsLater(replies, round, n);
      KnownGrows(replies, round + 1, n);
    }
  }

  /** Nor for a count over the budget. */
  lemma LargeRoundRefuses(prefix: string, replies: seq<ScanReply>, round: nat, n: nat)
    requires Unfinished(replies, round) && round < |replies|
    requires !WithinKeyBudget(|Known(replies, round + 1)|)
    ensures !Scannable(prefix, replies, n)
  {
    if Scannable(prefix, replies, n) {
      FinishIsLater(replies, round, n);
      KnownGrows(replies, round + 1, n);
    }
  }

  /** What refuses a scan at one round refuses it for good. */
  lemma TakenRoundRefuses(prefix: string, replies: seq<ScanReply>, round: nat)
    requires Unfinished(replies, round) && round < |replies| && replies[round].Round?
    requires Stray(prefix, replies[round].batch) || !WithinKeyBudget(|Known(replies, round + 1)|)
    ensures !CanScan(prefix, replies)
  {
    if Stray(prefix, replies[round].batch) {
      var key :| key in replies[round].batch && !UnderPrefix(key, prefix);
      forall n: nat { StrayRoundRefuses(prefix, replies, round, n, key); }
    } else {
      forall n: nat { LargeRoundRefuses(prefix, replies, round, n); }
    }
  }

  lemma OutOfRounds(prefix: string, replies: seq<ScanReply>)
    requires Unfinished(replies, MOST_SCAN_ROUNDS)
    ensures !CanScan(prefix, replies)
  {
    forall n: nat ensures !Scannable(prefix, replies, n) {
      if Scannable(prefix, replies, n) { FinishIsLater(replies, MOST_SCAN_ROUNDS, n); }
    }
  }

  lemma RoundStaysUnder(prefix: string, replies: seq<ScanReply>, round: nat)
    requires round < |replies| && AllUnder(prefix, Known(replies, round))
    requires replies[round].Round? && !Stray(prefix, replies[round].batch)
    ensures AllUnder(prefix, Known(replies, round + 1))
  {
  }

  /** The cursors `n` rounds send: zero first, then each one the round before was handed. */
  function CursorsSent(replies: seq<ScanReply>, n: nat): (r: seq<nat>)
    requires n <= |replies| + 1
    ensures |r| == n
  {
    if n == 0 then []
    else CursorsSent(replies, n - 1)
         + [if n > 1 && replies[n - 2].Round? then replies[n - 2].next else 0]
  }

  /**
   `scan`, against a server that answers `replies` and then no more: it succeeds exactly when the
   scan can be answered, and then with the keys themselves, sorted, each once, whatever order they
   came in and however often. `cursors` are what it sent.
   */
  method Scan(prefix: string, replies: seq<ScanReply>)
    returns (result: Result<seq<string>, ScanError>, cursors: seq<nat>)
    ensures result.Ok? <==> CanScan(prefix, replies)
    ensures result.Ok? ==> Scannable(prefix, replies, |cursors|)
                           && result.value == Ascending(Known(replies, |cursors|))
    ensures 0 < |cursors| <= 1000 && |cursors| <= |replies| + 1
    ensures cursors == CursorsSent(replies, |cursors|)
  {
    var cursor := 0;
    var found: seq<string> := [];
    cursors := [];
    ScanBegins(prefix, replies);
    for round := 0 to MOST_SCAN_ROUNDS
      invariant Scanning(prefix, replies, round, cursor, cursors, found)
    {
      SendsOne(prefix, replies, round, cursor, cursors, found);
      cursors := cursors + [cursor];
      var reply := if round < |replies| then replies[round] else RoundFailed;
      if reply.RoundFailed? {
        FailedRoundRefuses(prefix, replies, round);
        return Err(StoreFailed), cursors;
      }
      var refusal: Option<ScanError>;
      found, refusal := TakeRound(prefix, found, reply.batch, Known(replies, round));
      if refusal.Some? {
        TakenRoundRefuses(prefix, replies, round);
        return Err(refusal.value), cursors;
      }
      RoundStaysUnder(prefix, replies, round);
      cursor := reply.next;
      if cursor == 0 {
        RoundFinishes(prefix, replies, round);
        return Ok(found), cursors;
      }
      assert Unfinished(replies, round + 1);
    }
    OutOfRounds(prefix, replies);
    result := Err(NeverFinished);
  }

  /** After `round` rounds: what was sent, what is sent next, and what has been found. */
  ghost predicate Scanning(prefix: string, replies: seq<ScanReply>, round: nat, cursor: nat, cursors: seq<nat>,
                           found: seq<string>) {
    && round <= |replies| && cursors == CursorsSent(replies, round)
    && cursor == (if round > 0 && replies[round - 1].Round? then replies[round - 1].next else 0)
    && Unfinished(replies, round)
    && AllUnder(prefix, Known(replies, round))
    && found == Ascending(Known(replies, round))
  }

  lemma ScanBegins(prefix: string, replies: seq<ScanReply>)
    ensures Scanning(prefix, replies, 0, 0, [], [])
  {
    AscendingListsSet({});
    assert Known(replies, 0) == {};
  }

  lemma SendsOne(prefix: string, replies: seq<ScanReply>, round: nat, cursor: nat, cursors: seq<nat>,
                 found: seq<string>)
    requires Scanning(prefix, replies, round, cursor, cursors, found)
    ensures |cursors| == round && cursors + [cursor] == CursorsSent(replies, round + 1)
  {
  }

  lemma RoundFinishes(prefix: string, replies: seq<ScanReply>, round: nat)
    requires Unfinished(replies, round) && round < |replies| && round < MOST_SCAN_ROUNDS
    requires replies[round].Round? && replies[round].next == 0
    requires AllUnder(prefix, Known(replies, round + 1)) && WithinKeyBudget(|Known(replies, round + 1)|)
    ensures Scannable(prefix, replies, round + 1) && CanScan(prefix, replies)
  {
    assert Scannable(prefix, replies, round + 1);
  }

  /** One round's batch: checked key by key and pushed, then sorted, deduplicated and counted. */
  method TakeRound(prefix: string, before: seq<string>, batch: seq<string>, ghost known: set<string>)
    returns (found: seq<string>, refusal: Option<ScanError>)
    requires before == Ascending(known)
    ensures refusal.None? <==> !Stray(prefix, batch) && WithinKeyBudget(|known + KeysOf(batch)|)
    ensures refusal.None? ==> found == Ascending(known + KeysOf(batch))
  {
    found, refusal := before, None;
    var i := 0;
    while i < |batch|
      invariant 0 <= i <= |batch|
      invariant found == before + batch[..i]
      invariant forall key :: key in batch[..i] ==> UnderPrefix(key, prefix)
    {
      if !UnderPrefix(batch[i], prefix) {
        return found, Some(NotUnderPrefix);
      }
      found := found + [batch[i]];
      i := i + 1;
    }
    assert batch[..i] == batch;
    TidiedRound(known, before, batch);
    found := Dedup(Sort(found));
    if !WithinKeyBudget(|found|) {
      refusal := Some(OverBudget);
    }
  }

  /** Sorting and deduplicating after a round keeps the listing that of every key so far. */
  lemma TidiedRound(known: set<string>, before: seq<string>, batch: seq<string>)
    requires before == Ascending(known)
    ensures Dedup(Sort(before + batch)) == Ascending(known + KeysOf(batch))
    ensures |Dedup(Sort(before + batch))| == |known + KeysOf(batch)|
  {
    AscendingListsSet(known);
    assert (set key | key in before + batch) == known + KeysOf(batch);
    SortDedupIsAscending(before + batch);
  }

  /** A server that honours the pattern it was sent can never fail the check on the prefix. */
  lemma CheckNeverFires(prefix: string, replies: seq<ScanReply>, n: nat)
    requires n <= MOST_SCAN_ROUNDS && FinishesAt(replies, n)
    requires forall key :: key in Known(replies, n) ==> Matches(Escaped(prefix) + "*", key)
    ensures Scannable(prefix, replies, n) <==> WithinKeyBudget(|Known(replies, n)|)
  {
    forall key | key in Known(replies, n) ensures UnderPrefix(key, prefix) {
      PatternMeansPrefix(prefix, key);
    }
  }

  /** Two rounds that differ only in order and repeats leave the same listing behind. */
  lemma TidyingIgnoresOrder(a: seq<string>, b: seq<string>)
    requires KeysOf(a) == KeysOf(b)
    ensures Dedup(Sort(a)) == Dedup(Sort(b))
  {
    SortDedupIsAscending(a);
    SortDedupIsAscending(b);
  }
}
