/**
 One HTTP request shared by three handles: a writer of its body, a reader of the response's headers
 and a reader of its body. Nothing goes out until a reader asks, because until then the body is not
 known to be complete.
 */
module HttpExchange {
  import opened Wrappers

  type Byte = b: nat | b < 256

  type Bytes = seq<Byte>

  datatype Kind = TimedOut | PermissionDenied | ConnectionAborted | OtherKind

  datatype Header = Header(name: Bytes, value: Bytes)

  /** What the host does with the request; `why` is the chain of causes of one that could not be sent. */
  datatype Reply = Deadline | Unsent(why: string) | Replied(status: nat, headers: seq<Header>, body: Bytes)

  /** What an error says, as far as a reader of it can tell two apart, and its kind. */
  datatype Message = TookTooLong | NotSent(why: string) | Redirected(status: nat) | Refused(status: nat)

  datatype Reason = Reason(message: Message, kind: Kind)

  datatype Request = Request(posting: bool, body: Bytes)

  datatype Phase =
    | Pending(body: Bytes)
    | Answered(headers: Bytes, response: Option<Bytes>)
    | Failed(reason: Reason)

  datatype Half = Headers | Body

  // ---- What a reply comes to

  predicate IsSuccess(reply: Reply) {
    reply.Replied? && 200 <= reply.status < 300
  }

  function ReasonOf(reply: Reply): (r: Reason)
    requires !IsSuccess(reply)
  {
    match reply
    case Deadline => Reason(TookTooLong, TimedOut)
    case Unsent(why) => Reason(NotSent(why), OtherKind)
    case Replied(status, _, _) =>
      if 300 <= status < 400 then Reason(Redirected(status), OtherKind)
      else Reason(Refused(status),
                  if status == 401 then PermissionDenied
                  else if 500 <= status < 600 then ConnectionAborted
                  else OtherKind)
  }

  /** The header block: `name:value` and a newline each. */
  function Rendered(headers: seq<Header>): (r: Bytes) {
    if headers == [] then []
    else headers[0].name + [58] + headers[0].value + [10] + Rendered(headers[1..])
  }

  /** What sending the request makes of it: a success leaves a half for each of the two readers. */
  function Outcome(reply: Reply): (r: Phase) {
    if IsSuccess(reply) then Answered(Rendered(reply.headers), Some(reply.body)) else Failed(ReasonOf(reply))
  }

  // ---- The three handles, as one value

  datatype Conversation = Conversation(phase: Phase, requests: seq<Request>, headers: Option<Bytes>,
                                       body: Option<Bytes>)

  const FRESH := Conversation(Pending([]), [], None, None)

  datatype Op =
    | Write(bytes: Bytes)
    | Read(half: Half, capacity: nat, chunk: nat)
    | Fill(half: Half, window: nat)
    | Consume(half: Half, amount: nat)

  /** `Took` is what left a half for good; a filled buffer is only looked at. */
  datatype Output =
    | Wrote(count: nat)
    | Took(half: Half, bytes: Bytes)
    | Saw(half: Half, bytes: Bytes)
    | Broke(half: Half, reason: Reason)

  datatype Turn = Turn(after: Conversation, output: Output)

  function Inner(c: Conversation, half: Half): (r: Option<Bytes>) {
    if half.Headers? then c.headers else c.body
  }

  function WithInner(c: Conversation, half: Half, inner: Bytes): (r: Conversation) {
    if half.Headers? then c.(headers := Some(inner)) else c.(body := Some(inner))
  }

  /** `send`. */
  function Sent(posting: bool, reply: Reply, c: Conversation): (r: Conversation) {
    if c.phase.Pending?
    then c.(phase := Outcome(reply), requests := c.requests + [Request(posting, if posting then c.phase.body else [])])
    else c
  }

  /** `ready`: the half's own bytes, taken out of the exchange the first time. */
  function Ready(posting: bool, reply: Reply, c: Conversation, half: Half): (r: Conversation) {
    if Inner(c, half).Some? then c
    else
      var sent := Sent(posting, reply, c);
      match sent.phase
      case Pending(_) => WithInner(sent, half, [])
      case Failed(_) => sent
      case Answered(headers, response) =>
        if half.Headers?
        then WithInner(sent.(phase := Answered([], response)), half, headers)
        else WithInner(sent.(phase := Answered(headers, None)), half, if response.Some? then response.value else [])
  }

  function Least(a: nat, b: nat): (r: nat) {
    if a < b then a else b
  }

  /** A reader with something left yields at least one byte of it, and no more than was asked for. */
  function Amount(capacity: nat, chunk: nat, left: nat): (r: nat)
    ensures r <= capacity && r <= left && (capacity > 0 && left > 0 ==> r > 0)
  {
    Least(Least(capacity, left), if chunk == 0 then 1 else chunk)
  }

  function FailureOf(phase: Phase): (r: Reason) {
    if phase.Failed? then phase.reason else Reason(TookTooLong, TimedOut)
  }

  function Step(posting: bool, reply: Reply, c: Conversation, op: Op): (r: Turn) {
    match op
    case Write(bytes) =>
      Turn(if c.phase.Pending? then c.(phase := Pending(c.phase.body + bytes)) else c, Wrote(|bytes|))
    case Read(half, capacity, chunk) =>
      var ready := Ready(posting, reply, c, half);
      match Inner(ready, half) {
        case None => Turn(ready, Broke(half, FailureOf(ready.phase)))
        case Some(left) =>
          var n := Amount(capacity, chunk, |left|);
          Turn(WithInner(ready, half, left[n..]), Took(half, left[..n]))
      }
    case Fill(half, window) =>
      var ready := Ready(posting, reply, c, half);
      match Inner(ready, half) {
        case None => Turn(ready, Broke(half, FailureOf(ready.phase)))
        case Some(left) => Turn(ready, Saw(half, left[..Amount(|left|, window, |left|)]))
      }
    case Consume(half, amount) =>
      match Inner(c, half)
      case None => Turn(c, Took(half, []))
      case Some(left) =>
        var n := Least(amount, |left|);
        Turn(WithInner(c, half, left[n..]), Took(half, left[..n]))
  }

  datatype Run = Run(at: Conversation, outputs: seq<Output>)

  function Converse(posting: bool, reply: Reply, ops: seq<Op>): (r: Run) {
    if ops == [] then Run(FRESH, [])
    else
      var before := Converse(posting, reply, ops[..|ops| - 1]);
      var turn := Step(posting, reply, before.at, ops[|ops| - 1]);
      Run(turn.after, before.outputs + [turn.output])
  }

  // ---- The handles as the objects the caller is given

  class Exchange {
    const posting: bool
    var phase: Phase
    ghost var requests: seq<Request>

    constructor (posting: bool)
      ensures this.posting == posting && phase == Pending([]) && requests == []
    {
      this.posting := posting;
      phase := Pending([]);
      requests := [];
    }

    /** `send`; `reply` is what the host answers if it is asked now. */
    method Send(reply: Reply)
      modifies this
      ensures phase == if old(phase).Pending? then Outcome(reply) else old(phase)
      ensures requests ==
              if old(phase).Pending? then old(requests) + [Request(posting, if posting then old(phase).body else [])]
              else old(requests)
    {
      if !phase.Pending? {
        return;
      }
      requests := requests + [Request(posting, if posting then phase.body else [])];
      phase := Outcome(reply);
    }
  }

  class Reader {
    const exchange: Exchange
    const half: Half
    var inner: Option<Bytes>

    constructor (exchange: Exchange, half: Half)
      ensures this.exchange == exchange && this.half == half && inner == None
    {
      this.exchange := exchange;
      this.half := half;
      inner := None;
    }

    /** This reader's view of a conversation whose other reader holds `other`. */
    ghost function Viewed(other: Option<Bytes>): (r: Conversation)
      reads this, exchange
    {
      if half.Headers? then Conversation(exchange.phase, exchange.requests, inner, other)
      else Conversation(exchange.phase, exchange.requests, other, inner)
    }

    method MakeReady(reply: Reply, ghost other: Option<Bytes>) returns (error: Option<Reason>)
      modifies this, exchange
      ensures Viewed(other) == Ready(exchange.posting, reply, old(Viewed(other)), half)
      ensures error.Some? <==> inner.None?
      ensures error.Some? ==> exchange.phase == Failed(error.value)
    {
      if inner.Some? {
        return None;
      }
      exchange.Send(reply);
      match exchange.phase {
        case Failed(reason) =>
          return Some(reason);
        case Answered(headers, response) =>
          if half.Headers? {
            inner := Some(headers);
            exchange.phase := Answered([], response);
          } else {
            inner := if response.Some? then response else Some([]);
            exchange.phase := Answered(headers, None);
          }
        case Pending(_) =>
          inner := Some([]);
      }
      error := None;
    }

    method ReadSome(reply: Reply, capacity: nat, chunk: nat, ghost other: Option<Bytes>) returns (output: Output)
      modifies this, exchange
      ensures Turn(Viewed(other), output) ==
              Step(exchange.posting, reply, old(Viewed(other)), Read(half, capacity, chunk))
    {
      var error := MakeReady(reply, other);
      if error.Some? {
        return Broke(half, error.value);
      }
      var left := inner.value;
      var n := Amount(capacity, chunk, |left|);
      inner := Some(left[n..]);
      output := Took(half, left[..n]);
    }

    method FillBuffer(reply: Reply, window: nat, ghost other: Option<Bytes>) returns (output: Output)
      modifies this, exchange
      ensures Turn(Viewed(other), output) == Step(exchange.posting, reply, old(Viewed(other)), Fill(half, window))
    {
      var error := MakeReady(reply, other);
      if error.Some? {
        return Broke(half, error.value);
      }
      var left := inner.value;
      output := Saw(half, left[..Amount(|left|, window, |left|)]);
    }

    method ConsumeSome(ghost reply: Reply, amount: nat, ghost other: Option<Bytes>) returns (output: Output)
      modifies this
      ensures Turn(Viewed(other), output) == Step(exchange.posting, reply, old(Viewed(other)), Consume(half, amount))
    {
      if inner.None? {
        return Took(half, []);
      }
      var left := inner.value;
      var n := Least(amount, |left|);
      inner := Some(left[n..]);
      output := Took(half, left[..n]);
    }
  }

  class BodyWriter {
    const exchange: Exchange

    constructor (exchange: Exchange)
      ensures this.exchange == exchange
    {
      this.exchange := exchange;
    }

    method WriteAll(bytes: Bytes) returns (count: nat)
      modifies exchange
      ensures count == |bytes|
      ensures exchange.requests == old(exchange.requests)
      ensures exchange.phase ==
              if old(exchange.phase).Pending? then Pending(old(exchange.phase).body + bytes) else old(exchange.phase)
    {
      if exchange.phase.Pending? {
        exchange.phase := Pending(exchange.phase.body + bytes);
      }
      count := |bytes|;
    }
  }

  /** The three handles `post` gives out share one exchange. */
  ghost predicate Joined(writer: BodyWriter, headers: Reader, body: Reader) {
    && headers.exchange == body.exchange == writer.exchange
    && headers.half == Headers && body.half == Body
  }

  ghost function Whole(headers: Reader, body: Reader): (r: Conversation)
    reads headers, body, headers.exchange
  {
    Conversation(headers.exchange.phase, headers.exchange.requests, headers.inner, body.inner)
  }

  method Perform(writer: BodyWriter, headers: Reader, body: Reader, reply: Reply, op: Op) returns (output: Output)
    requires Joined(writer, headers, body)
    modifies headers, body, headers.exchange
    ensures Turn(Whole(headers, body), output) == Step(headers.exchange.posting, reply, old(Whole(headers, body)), op)
  {
    match op {
      case Write(bytes) =>
        var count := writer.WriteAll(bytes);
        output := Wrote(count);
      case Read(Headers, capacity, chunk) =>
        output := headers.ReadSome(reply, capacity, chunk, body.inner);
      case Read(Body, capacity, chunk) =>
        output := body.ReadSome(reply, capacity, chunk, headers.inner);
      case Fill(Headers, window) =>
        output := headers.FillBuffer(reply, window, body.inner);
      case Fill(Body, window) =>
        output := body.FillBuffer(reply, window, headers.inner);
      case Consume(Headers, amount) =>
        output := headers.ConsumeSome(reply, amount, body.inner);
      case Consume(Body, amount) =>
        output := body.ConsumeSome(reply, amount, headers.inner);
    }
  }

  /** Whatever the caller does with its three handles, in whatever order. */
  method Drive(posting: bool, reply: Reply, ops: seq<Op>) returns (outputs: seq<Output>, ghost at: Conversation)
    ensures outputs == Converse(posting, reply, ops).outputs
    ensures at == Converse(posting, reply, ops).at
  {
    var exchange := new Exchange(posting);
    var writer := new BodyWriter(exchange);
    var headers := new Reader(exchange, Headers);
    var body := new Reader(exchange, Body);
    outputs := [];
    var i := 0;
    while i < |ops|
      invariant 0 <= i <= |ops|
      invariant Joined(writer, headers, body) && headers.exchange == exchange && exchange.posting == posting
      invariant Run(Whole(headers, body), outputs) == Converse(posting, reply, ops[..i])
    {
      assert ops[..i + 1][..i] == ops[..i];
      var output := Perform(writer, headers, body, reply, ops[i]);
      outputs := outputs + [output];
      i := i + 1;
    }
    assert ops[..i] == ops;
    at := Whole(headers, body);
  }
}
