/** What holds of one exchange for every order its three handles can be used in. */
module HttpExchangeGuarantees {
  import opened HttpExchange
  import opened Wrappers

  /** Only a reader asking for something sends the request. */
  predicate Asks(op: Op) {
    op.Read? || op.Fill?
  }

  predicate Asked(ops: seq<Op>) {
    ops != [] && (Asked(ops[..|ops| - 1]) || Asks(ops[|ops| - 1]))
  }

  /** What was written before the first read, in order. */
  function Written(ops: seq<Op>): (r: Bytes) {
    if ops == [] then []
    else
      var before, last := ops[..|ops| - 1], ops[|ops| - 1];
      if last.Write? && !Asked(before) then Written(before) + last.bytes else Written(before)
  }

  /** Everything a half has yielded. */
  function Yielded(outputs: seq<Output>, half: Half): (r: Bytes) {
    if outputs == [] then []
    else
      var before, last := outputs[..|outputs| - 1], outputs[|outputs| - 1];
      if last.Took? && last.half == half then Yielded(before, half) + last.bytes else Yielded(before, half)
  }

  // ---- One request

  /** Where an exchange stands, from whether it was asked for and what was written before that. */
  predicate Stands(posting: bool, at: Conversation, asked: bool, written: Bytes) {
    && at.requests == (if asked then [Request(posting, if posting then written else [])] else [])
    && (if asked then !at.phase.Pending? else at.phase == Pending(written))
    && (!asked ==> at.headers.None? && at.body.None?)
  }

  lemma StepStands(posting: bool, reply: Reply, at: Conversation, op: Op, asked: bool, written: Bytes)
    requires Stands(posting, at, asked, written)
    ensures Stands(posting, Step(posting, reply, at, op).after, asked || Asks(op),
                   if op.Write? && !asked then written + op.bytes else written)
  {
    assert !Outcome(reply).Pending?;
  }

  /**
   At most one request goes out, exactly when something has been read, and its body is everything
   written before that.
   */
  lemma {:induction false} OneRequest(posting: bool, reply: Reply, ops: seq<Op>)
    ensures Stands(posting, Converse(posting, reply, ops).at, Asked(ops), Written(ops))
  {
    if ops != [] {
      var before, last := ops[..|ops| - 1], ops[|ops| - 1];
      OneRequest(posting, reply, before);
      StepStands(posting, reply, Converse(posting, reply, before).at, last, Asked(before), Written(before));
    }
  }

  /** A write after the first read reports every byte written, and changes nothing. */
  lemma LateWriteIsDropped(posting: bool, reply: Reply, ops: seq<Op>, bytes: Bytes)
    requires Asked(ops)
    ensures var before, after := Converse(posting, reply, ops), Converse(posting, reply, ops + [Write(bytes)]);
            after.at == before.at && after.outputs == before.outputs + [Wrote(|bytes|)]
  {
    OneRequest(posting, reply, ops);
    assert (ops + [Write(bytes)])[..|ops|] == ops;
  }

  // ---- A reply

  predicate Succeeds(reply: Reply) {
    reply.Replied? && 200 <= reply.status < 300
  }

  /** What each reader is there for: the header block for the one, the response itself for the other. */
  function Due(reply: Reply, half: Half): (r: Bytes)
    requires Succeeds(reply)
  {
    match half
    case Headers => Rendered(reply.headers)
    case Body => reply.body
  }

  /** What a half still has to yield. */
  predicate Owes(reply: Reply, at: Conversation, half: Half, left: Bytes)
    requires Succeeds(reply)
  {
    match Inner(at, half)
    case Some(rest) => left == rest
    case None =>
      && left == Due(reply, half)
      && match at.phase
         case Pending(_) => true
         case Failed(_) => false
         case Answered(headers, response) =>
           if half.Headers? then headers == left else response == Some(left)
  }

  /** A half has yielded a beginning of what it says, and owes the rest. */
  ghost predicate KeepsWord(reply: Reply, at: Conversation, yielded: Bytes, half: Half)
    requires Succeeds(reply)
  {
    exists left: Bytes :: Owes(reply, at, half, left) && yielded + left == Due(reply, half)
  }

  /** Making one half ready leaves both owing what they owed. */
  lemma ReadyOwes(posting: bool, reply: Reply, c: Conversation, asked: Half, half: Half, left: Bytes)
    requires Succeeds(reply) && Owes(reply, c, half, left) && !c.phase.Failed?
    ensures var ready := Ready(posting, reply, c, asked);
            Owes(reply, ready, half, left) && !ready.phase.Failed? && Inner(ready, asked).Some?
  {
    assert Outcome(reply) == Answered(Rendered(reply.headers), Some(reply.body));
  }

  /** What one operation takes off what a half owes. */
  lemma StepOwes(posting: bool, reply: Reply, c: Conversation, op: Op, half: Half, left: Bytes)
    requires Succeeds(reply) && Owes(reply, c, half, left) && !c.phase.Failed?
    ensures var turn := Step(posting, reply, c, op);
            && !turn.after.phase.Failed? && !turn.output.Broke?
            && if turn.output.Took? && turn.output.half == half
               then turn.output.bytes <= left && Owes(reply, turn.after, half, left[|turn.output.bytes|..])
               else Owes(reply, turn.after, half, left)
  {
    assert left[0..] == left;
    match op {
      case Write(_) =>
      case Read(asked, _, _) => ReadyOwes(posting, reply, c, asked, half, left);
      case Fill(asked, _) => ReadyOwes(posting, reply, c, asked, half, left);
      case Consume(_, _) =>
    }
  }

  lemma StepKeepsWord(posting: bool, reply: Reply, c: Conversation, op: Op, yielded: Bytes, half: Half)
    requires Succeeds(reply) && KeepsWord(reply, c, yielded, half) && !c.phase.Failed?
    ensures var turn := Step(posting, reply, c, op);
            var now := if turn.output.Took? && turn.output.half == half then yielded + turn.output.bytes else yielded;
            && KeepsWord(reply, turn.after, now, half) && !turn.after.phase.Failed?
            && !turn.output.Broke?
  {
    var left: Bytes :| Owes(reply, c, half, left) && yielded + left == Due(reply, half);
    var turn := Step(posting, reply, c, op);
    StepOwes(posting, reply, c, op, half, left);
    if turn.output.Took? && turn.output.half == half {
      TakesFromTheFront(yielded, turn.output.bytes, left);
      assert Owes(reply, turn.after, half, left[|turn.output.bytes|..]);
    } else {
      assert Owes(reply, turn.after, half, left);
    }
  }

  lemma TakesFromTheFront(yielded: Bytes, took: Bytes, left: Bytes)
    requires took <= left
    ensures (yielded + took) + left[|took|..] == yielded + left
  {
  }

  /**
   When the host answers, each half yields exactly its own bytes, once and in order, however the
   reads of the two are interleaved: what it has yielded and what it has left are together always
   the whole of it, and no read fails.
   */
  lemma {:induction false} EachHalfIsWhole(posting: bool, reply: Reply, ops: seq<Op>, half: Half)
    requires Succeeds(reply)
    ensures var run := Converse(posting, reply, ops);
            && KeepsWord(reply, run.at, Yielded(run.outputs, half), half)
            && !run.at.phase.Failed?
            && (Inner(run.at, half) == Some([]) ==> Yielded(run.outputs, half) == Due(reply, half))
            && |run.outputs| == |ops|
            && forall i :: 0 <= i < |run.outputs| ==> !run.outputs[i].Broke?
  {
    if ops == [] {
      assert Owes(reply, FRESH, half, Due(reply, half));
      assert [] + Due(reply, half) == Due(reply, half);
    } else {
      var before := Converse(posting, reply, ops[..|ops| - 1]);
      var run := Converse(posting, reply, ops);
      EachHalfIsWhole(posting, reply, ops[..|ops| - 1], half);
      StepKeepsWord(posting, reply, before.at, ops[|ops| - 1], Yielded(before.outputs, half), half);
      assert run.outputs[..|run.outputs| - 1] == before.outputs;
    }
    var run := Converse(posting, reply, ops);
    if Inner(run.at, half) == Some([]) {
      var left: Bytes :| Owes(reply, run.at, half, left) && Yielded(run.outputs, half) + left == Due(reply, half);
      assert Yielded(run.outputs, half) + [] == Yielded(run.outputs, half);
    }
  }

  lemma ReadTakes(posting: bool, reply: Reply, c: Conversation, half: Half, left: Bytes, capacity: nat, chunk: nat)
    requires Succeeds(reply) && Owes(reply, c, half, left) && !c.phase.Failed? && capacity > 0
    ensures Step(posting, reply, c, Read(half, capacity, chunk)).output == Took(half, []) <==> left == []
  {
    ReadyOwes(posting, reply, c, half, half, left);
  }

  lemma WholeIffNothingLeft(yielded: Bytes, left: Bytes, whole: Bytes)
    requires yielded + left == whole
    ensures yielded == whole <==> left == []
  {
    assert |yielded| + |left| == |whole|;
    if left == [] { assert yielded + [] == yielded; }
  }

  /** A read that asks for something gets nothing exactly when its half has yielded everything. */
  lemma NothingMeansTheEnd(posting: bool, reply: Reply, ops: seq<Op>, half: Half, capacity: nat, chunk: nat)
    requires Succeeds(reply) && capacity > 0
    ensures var before := Converse(posting, reply, ops);
            Step(posting, reply, before.at, Read(half, capacity, chunk)).output == Took(half, []) <==>
              Yielded(before.outputs, half) == Due(reply, half)
  {
    var before := Converse(posting, reply, ops);
    EachHalfIsWhole(posting, reply, ops, half);
    var yielded := Yielded(before.outputs, half);
    var left: Bytes :| Owes(reply, before.at, half, left) && yielded + left == Due(reply, half);
    ReadTakes(posting, reply, before.at, half, left, capacity, chunk);
    WholeIffNothingLeft(yielded, left, Due(reply, half));
  }

  /**
   What the caller gets of a success, however it goes about reading: the header reader never yields
   anything but the header block and the body reader anything but the response, each from the front;
   and a reader that has nothing more to yield has yielded all of it.
   */
  lemma HalvesArrive(posting: bool, reply: Reply, ops: seq<Op>, capacity: nat, chunk: nat)
    requires Succeeds(reply) && capacity > 0
    ensures var run := Converse(posting, reply, ops);
            var headers, body := Yielded(run.outputs, Headers), Yielded(run.outputs, Body);
            && headers <= Rendered(reply.headers) && body <= reply.body
            && (Step(posting, reply, run.at, Read(Headers, capacity, chunk)).output == Took(Headers, []) <==>
                  headers == Rendered(reply.headers))
            && (Step(posting, reply, run.at, Read(Body, capacity, chunk)).output == Took(Body, []) <==>
                  body == reply.body)
  {
    NothingMeansTheEnd(posting, reply, ops, Headers, capacity, chunk);
    NothingMeansTheEnd(posting, reply, ops, Body, capacity, chunk);
    forall half: Half ensures Yielded(Converse(posting, reply, ops).outputs, half) <= Due(reply, half) {
      EachHalfIsWhole(posting, reply, ops, half);
    }
  }

  /** So a header reader that has come to its end has yielded what parses back to the reply's own headers. */
  lemma HeadersArrive(posting: bool, reply: Reply, ops: seq<Op>, capacity: nat, chunk: nat)
    requires Succeeds(reply) && capacity > 0
    requires forall i :: 0 <= i < |reply.headers| ==> IsHeader(reply.headers[i])
    requires var run := Converse(posting, reply, ops);
             Step(posting, reply, run.at, Read(Headers, capacity, chunk)).output == Took(Headers, [])
    ensures Parsed(Yielded(Converse(posting, reply, ops).outputs, Headers)) == reply.headers
  {
    HalvesArrive(posting, reply, ops, capacity, chunk);
    HeadersReadBack(reply.headers);
  }

  /**
   Looking at what is buffered takes nothing: it shows what the half yields next, and something as
   long as anything is left. A read takes no more than it was asked for, and a consume no more than that.
   */
  lemma LookingShowsWhatIsNext(posting: bool, reply: Reply, ops: seq<Op>, half: Half, window: nat, amount: nat)
    requires Succeeds(reply)
    ensures var run := Converse(posting, reply, ops);
            var yielded, whole := Yielded(run.outputs, half), Due(reply, half);
            var turn := Step(posting, reply, run.at, Fill(half, window));
            && turn.output.Saw? && turn.output.half == half && yielded + turn.output.bytes <= whole
            && (turn.output.bytes == [] <==> yielded == whole)
            && (var took := Step(posting, reply, turn.after, Consume(half, amount)).output;
                && took.Took? && took.half == half && yielded + took.bytes <= whole
                && |took.bytes| == if amount <= |whole| - |yielded| then amount else |whole| - |yielded|)
    ensures var taken := Step(posting, reply, Converse(posting, reply, ops).at, Read(half, amount, window)).output;
            taken.Took? && taken.half == half && |taken.bytes| <= amount
  {
    var run := Converse(posting, reply, ops);
    EachHalfIsWhole(posting, reply, ops, half);
    var yielded := Yielded(run.outputs, half);
    var left: Bytes :| Owes(reply, run.at, half, left) && yielded + left == Due(reply, half);
    WholeIffNothingLeft(yielded, left, Due(reply, half));
    ReadyOwes(posting, reply, run.at, half, half, left);
    LooksAt(posting, reply, run.at, half, left, window, amount);
    var turn := Step(posting, reply, run.at, Fill(half, window));
    FrontOf(yielded, turn.output.bytes, left);
    FrontOf(yielded, Step(posting, reply, turn.after, Consume(half, amount)).output.bytes, left);
  }

  lemma LooksAt(posting: bool, reply: Reply, c: Conversation, half: Half, left: Bytes, window: nat, amount: nat)
    requires Succeeds(reply) && Owes(reply, c, half, left) && !c.phase.Failed?
    ensures var turn := Step(posting, reply, c, Fill(half, window));
            && turn.output.Saw? && turn.output.half == half && turn.output.bytes <= left
            && (turn.output.bytes == [] <==> left == [])
            && (var took := Step(posting, reply, turn.after, Consume(half, amount)).output;
                && took.Took? && took.half == half && took.bytes <= left
                && |took.bytes| == if amount <= |left| then amount else |left|)
    ensures var taken := Step(posting, reply, c, Read(half, amount, window)).output;
            taken.Took? && taken.half == half && |taken.bytes| <= amount
  {
    ReadyOwes(posting, reply, c, half, half, left);
  }

  lemma FrontOf(yielded: Bytes, some: Bytes, left: Bytes)
    requires some <= left
    ensures yielded + some <= yielded + left
  {
    assert (yielded + left)[..|yielded + some|] == yielded + some;
  }

  // ---- No reply

  /** What an operation may say of an exchange that failed. */
  predicate SaysFailed(op: Op, output: Output, reason: Reason) {
    match op
    case Write(bytes) => output == Wrote(|bytes|)
    case Read(half, _, _) => output == Broke(half, reason)
    case Fill(half, _) => output == Broke(half, reason)
    case Consume(half, _) => output == Took(half, [])
  }

  lemma StepFails(posting: bool, reply: Reply, c: Conversation, op: Op)
    requires !Succeeds(reply) && c.headers.None? && c.body.None?
    requires c.phase.Pending? || c.phase == Failed(ReasonOf(reply))
    ensures var turn := Step(posting, reply, c, op);
            && turn.after.headers.None? && turn.after.body.None?
            && (turn.after.phase.Pending? || turn.after.phase == Failed(ReasonOf(reply)))
            && SaysFailed(op, turn.output, ReasonOf(reply))
  {
    assert Outcome(reply) == Failed(ReasonOf(reply));
  }

  /** When it fails, both halves say so, every time, with the same reason, and neither yields a byte. */
  lemma {:induction false} BothHalvesFailAlike(posting: bool, reply: Reply, ops: seq<Op>)
    requires !Succeeds(reply)
    ensures var run := Converse(posting, reply, ops);
            && run.at.headers.None? && run.at.body.None?
            && (run.at.phase.Pending? || run.at.phase == Failed(ReasonOf(reply)))
            && |run.outputs| == |ops|
            && forall i :: 0 <= i < |ops| ==> SaysFailed(ops[i], run.outputs[i], ReasonOf(reply))
  {
    if ops != [] {
      var before := ops[..|ops| - 1];
      BothHalvesFailAlike(posting, reply, before);
      StepFails(posting, reply, Converse(posting, reply, before).at, ops[|ops| - 1]);
      assert forall i :: 0 <= i < |before| ==> before[i] == ops[i];
    }
  }

  /** What is wrong with a reply that is no success: the message and the kind the caller is given. */
  predicate Tells(reply: Reply, reason: Reason) {
    match reply
    case Deadline => reason == Reason(TookTooLong, TimedOut)
    case Unsent(why) => reason == Reason(NotSent(why), OtherKind)
    case Replied(status, _, _) =>
      && reason.message == (if 300 <= status < 400 then Redirected(status) else Refused(status))
      && (reason.kind == PermissionDenied <==> status == 401)
      && (reason.kind == ConnectionAborted <==> 500 <= status < 600)
      && reason.kind != TimedOut
  }

  /**
   What the caller of a read can tell from it, whichever half it read and whatever it did before: it
   fails exactly when the host did not answer with a success, and then says why; a refused credential
   is exactly a 401, a timeout exactly the deadline, and a dropped connection exactly an answer in
   the five hundreds.
   */
  lemma ReadsFailIff(posting: bool, reply: Reply, ops: seq<Op>, i: nat)
    requires i < |ops| && Asks(ops[i])
    ensures |Converse(posting, reply, ops).outputs| == |ops|
    ensures var output := Converse(posting, reply, ops).outputs[i];
            && (output.Broke? <==> !(reply.Replied? && 200 <= reply.status < 300))
            && (output.Broke? ==> Tells(reply, output.reason))
  {
    if Succeeds(reply) {
      EachHalfIsWhole(posting, reply, ops, Headers);
    } else {
      BothHalvesFailAlike(posting, reply, ops);
    }
  }

  // ---- The header block

  /** The bytes before the first `mark`, all of them if there is none. */
  function Before(bytes: Bytes, mark: Byte): (r: Bytes)
    ensures |r| <= |bytes|
  {
    if bytes == [] || bytes[0] == mark then [] else [bytes[0]] + Before(bytes[1..], mark)
  }

  /** What reads the block: a line at a time, each split at its first colon; a line without one is passed over. */
  function Parsed(block: Bytes): (r: seq<Header>)
    decreases |block|
  {
    if block == [] then []
    else
      var line := Before(block, 10);
      var rest := if |line| < |block| then block[|line| + 1..] else [];
      var name := Before(line, 58);
      (if |name| < |line| then [Header(name, line[|name| + 1..])] else []) + Parsed(rest)
  }

  /** What HTTP allows a header to be made of. */
  predicate IsHeader(header: Header) {
    58 !in header.name && 10 !in header.name && 10 !in header.value
  }

  lemma {:induction false} StopsAtMark(front: Bytes, mark: Byte, tail: Bytes)
    requires mark !in front
    ensures Before(front + [mark] + tail, mark) == front
  {
    var whole := front + [mark] + tail;
    if front != [] {
      assert whole[1..] == front[1..] + [mark] + tail;
      StopsAtMark(front[1..], mark, tail);
    }
  }

  lemma LineReadsBack(block: Bytes, header: Header, rest: Bytes)
    requires IsHeader(header) && block == (header.name + [58] + header.value) + [10] + rest
    ensures Parsed(block) == [header] + Parsed(rest)
  {
    var line := header.name + [58] + header.value;
    assert 10 !in line;
    StopsAtMark(line, 10, rest);
    StopsAtMark(header.name, 58, header.value);
    assert line[|header.name| + 1..] == header.value;
    assert block[|line| + 1..] == rest;
  }

  /** The block reads back as the headers it was rendered from, in order. */
  lemma {:induction false} HeadersReadBack(headers: seq<Header>)
    requires forall i :: 0 <= i < |headers| ==> IsHeader(headers[i])
    ensures Parsed(Rendered(headers)) == headers
  {
    if headers != [] {
      var header, rest := headers[0], Rendered(headers[1..]);
      LineReadsBack(Rendered(headers), header, rest);
      HeadersReadBack(headers[1..]);
      assert [headers[0]] + headers[1..] == headers;
    }
  }
}
