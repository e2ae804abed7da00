/** What the proxy does wrong, and when: proxy/faults.py and the edits in proxy/server.py. */
module Faults {
  import opened Json
  import opened Text
  import opened Http

  datatype FaultMode = NoFault | Latency | ErrorCode | CorruptBody | Drop

  datatype FaultConfig = FaultConfig(mode: FaultMode, probability: real, seed: int, errorStatus: nat)

  /** `random.Random(seed)`: the number drawn at each position. */
  type Draws = (int, nat) -> real

  /** The k-th decision: a function of the configuration and k alone. */
  predicate Decision(config: FaultConfig, draws: Draws, k: nat) {
    config.mode != NoFault && draws(config.seed, k) < config.probability
  }

  /** `FaultDecider`: the generator advances with every request it is asked about. */
  class FaultDecider {
    const config: FaultConfig
    const draws: Draws
    var position: nat
    var decisions: seq<bool>

    ghost predicate Valid()
      reads this
    {
      && position == (if config.mode == NoFault then 0 else |decisions|)
      && forall k | 0 <= k < |decisions| :: decisions[k] == Decision(config, draws, k)
    }

    constructor (config: FaultConfig, draws: Draws)
      ensures Valid() && decisions == [] && this.config == config && this.draws == draws
    {
      this.config, this.draws, this.position, this.decisions := config, draws, 0, [];
    }

    method ShouldInject() returns (hit: bool)
      requires Valid()
      modifies this
      ensures Valid() && decisions == old(decisions) + [hit]
      ensures hit == Decision(config, draws, |old(decisions)|)
    {
      if config.mode == NoFault {
        decisions := decisions + [false];
        return false;
      }
      hit := draws(config.seed, position) < config.probability;
      position := position + 1;
      decisions := decisions + [hit];
    }
  }

  function CountTrue(bs: seq<bool>): nat {
    if bs == [] then 0 else CountTrue(bs[..|bs| - 1]) + if bs[|bs| - 1] then 1 else 0
  }

  /** `FaultProxy`, as far as it has state: the counters, and the part of `handle` that decides. */
  class FaultProxy {
    const decider: FaultDecider
    var requestsSeen: nat
    var faultsInjected: nat

    ghost predicate Valid()
      reads this, decider
    {
      && decider.Valid()
      && requestsSeen == |decider.decisions|
      && faultsInjected == CountTrue(decider.decisions)
    }

    constructor (config: FaultConfig, draws: Draws)
      ensures Valid() && fresh(decider) && requestsSeen == 0
      ensures decider.config == config && decider.draws == draws
    {
      decider := new FaultDecider(config, draws);
      requestsSeen, faultsInjected := 0, 0;
    }

    /** From the request's arrival to the decision about it, with no await in between. */
    method Admit() returns (inject: bool)
      requires Valid()
      modifies this, decider
      ensures Valid() && requestsSeen == old(requestsSeen) + 1
      ensures inject == Decision(decider.config, decider.draws, old(requestsSeen))
      ensures faultsInjected == old(faultsInjected) + if inject then 1 else 0
    {
      requestsSeen := requestsSeen + 1;
      ghost var before := decider.decisions;
      inject := decider.ShouldInject();
      assert decider.decisions[..|before|] == before;
      if inject { faultsInjected := faultsInjected + 1; }
    }

    /** The request as it is sent on: one request per connection. */
    method Prepare(request: HttpMessage) returns (raw: Bytes)
      modifies request`headers
      ensures request.Model() == OneShot(old(request.Model())) && raw == Print(request.Model())
    {
      Rewrite(request, "Connection", "close", "Keep-Alive");
      raw := request.ToBytes();
    }

    /** One header set, another dropped. */
    method Rewrite(request: HttpMessage, name: Bytes, value: Bytes, other: Bytes)
      modifies request`headers
      ensures request.headers == SetAndDrop(old(request.headers), name, value, other)
    {
      request.ReplaceHeader(name, value);
      request.DropHeader(other);
    }

    /** Half the body, and a Content-Length to match. */
    method CutBody(response: HttpMessage)
      requires response.body != ""
      modifies response
      ensures response.Model() == Corrupt(old(response.Model()))
    {
      response.body := response.body[..Half(response.body)];
      response.ReplaceHeader("content-length", Decimal(|response.body|));
    }

    /** The bytes written back for an upstream response. */
    method Respond(response: HttpMessage, inject: bool) returns (raw: Bytes)
      modifies response
      ensures raw == Reply(decider.config.mode, inject, old(response.Model()))
    {
      if inject && decider.config.mode == CorruptBody && response.body != "" {
        CutBody(response);
      }
      raw := response.ToBytes();
      if inject && decider.config.mode == Drop {
        raw := raw[..|raw| / 2];
      }
    }

    /**
      `handle`, for one connection at a time: what the client sent, and how upstream answers what it
      is sent. Gives what was sent upstream, and what was written back.
     */
    method Handle(stream: Bytes, upstream: Bytes -> Bytes) returns (sent: Option<Bytes>, reply: Option<Bytes>)
      requires Valid()
      modifies this, decider
      ensures Valid()
      ensures var inject := Decision(decider.config, decider.draws, old(requestsSeen));
        match Read(stream, false)
        case Got(m, _) =>
          && requestsSeen == old(requestsSeen) + 1
          && faultsInjected == old(faultsInjected) + (if inject then 1 else 0)
          && sent == SentUpstream(decider.config, inject, m)
          && reply == WrittenBack(decider.config, inject, m, upstream)
        case _ => requestsSeen == old(requestsSeen) && sent == None && reply == None
    {
      sent, reply := None, None;
      var reading := ReadMessage(stream, false);
      if reading.Got? {
        var inject := Admit();
        if inject && decider.config.mode == ErrorCode {
          reply := Some(Print(ErrorMessage(decider.config.errorStatus)));
        } else {
          sent, reply := Exchange(reading.message, inject, upstream);
        }
      }
    }

    /** The part of `handle` that talks to upstream. */
    method Exchange(m: Message, inject: bool, upstream: Bytes -> Bytes)
      returns (sent: Option<Bytes>, reply: Option<Bytes>)
      requires !(inject && decider.config.mode == ErrorCode)
      ensures sent == SentUpstream(decider.config, inject, m)
      ensures reply == WrittenBack(decider.config, inject, m, upstream)
    {
      var request := new HttpMessage(m.startLine, m.headers, m.body);
      var raw := Prepare(request);
      sent, reply := Some(raw), None;
      var answer := ReadMessage(upstream(raw), true);
      if answer.Got? {
        var response := new HttpMessage(answer.message.startLine, answer.message.headers, answer.message.body);
        var bytes := Respond(response, inject);
        reply := Some(bytes);
      }
    }
  }

  // ----- the edits -----

  function SetAndDrop(headers: Headers, name: Bytes, value: Bytes, other: Bytes): Headers {
    Without(Without(headers, name) + [(name, value)], other)
  }

  function OneShot(m: Message): Message {
    m.(headers := SetAndDrop(m.headers, "Connection", "close", "Keep-Alive"))
  }

  /** `max(1, len(body) // 2)`. */
  function Half(body: Bytes): (n: nat)
    requires body != ""
    ensures 1 <= n <= |body|
    ensures n < |body| <==> |body| >= 2
  {
    if |body| / 2 > 1 then |body| / 2 else 1
  }

  function Corrupt(m: Message): Message {
    if m.body == "" then m
    else
      var body := m.body[..Half(m.body)];
      Message(m.startLine, Without(m.headers, "content-length") + [("content-length", Decimal(|body|))], body)
  }

  /** What the client is sent for an upstream response. */
  function Reply(mode: FaultMode, inject: bool, response: Message): Bytes {
    if inject && mode == CorruptBody then Print(Corrupt(response))
    else if inject && mode == Drop then Print(response)[..|Print(response)| / 2]
    else Print(response)
  }

  /** What goes upstream for a request: nothing when the proxy answers by itself. */
  function SentUpstream(config: FaultConfig, inject: bool, request: Message): Option<Bytes> {
    if inject && config.mode == ErrorCode then None else Some(Print(OneShot(request)))
  }

  /** What the client gets: the proxy's own answer, or the upstream's, edited or not. */
  function WrittenBack(config: FaultConfig, inject: bool, request: Message, upstream: Bytes -> Bytes): Option<Bytes> {
    if inject && config.mode == ErrorCode then Some(Print(ErrorMessage(config.errorStatus)))
    else
      match Read(upstream(Print(OneShot(request))), true)
      case Got(response, _) => Some(Reply(config.mode, inject, response))
      case _ => None
  }

  const ERROR_BODY: Bytes :=
    "{\"error\":{\"code\":\"" + "proxy_injected" + "\",\"message\":\"" + "injected fault: error_code" + "\"}}"

  /** The message `_error_response` spells out. */
  function ErrorMessage(status: nat): Message {
    Message("HTTP/1.1 " + Decimal(status) + " Service Unavailable",
            [("content-type", "application/json"),
             ("content-length", Decimal(|ERROR_BODY|)),
             ("connection", "close")],
            ERROR_BODY)
  }

  // ----- what the edits keep -----

  lemma {:induction false} WithoutIsWellFormed(headers: Headers, name: Bytes)
    requires WellFormedHeaders(headers)
    ensures WellFormedHeaders(Without(headers, name))
  {
    if headers != [] {
      var rest := headers[1..];
      assert WellFormedHeaders(rest) by {
        forall i | 0 <= i < |rest| ensures WellFormedHeader(rest[i]) { assert rest[i] == headers[i + 1]; }
      }
      assert WellFormedHeader(headers[0]);
      WithoutIsWellFormed(rest, name);
    }
  }

  lemma PlainHeader(key: Bytes, value: Bytes)
    requires '\r' !in key && '\r' !in value && ':' !in key && Stripped(key) && Stripped(value)
    ensures WellFormedHeader((key, value))
  {
    NoReturnIsOneLine(key);
    NoReturnIsOneLine(value);
    JoinedIsOneLine(key, value);
  }

  lemma AppendIsWellFormed(headers: Headers, h: (Bytes, Bytes))
    requires WellFormedHeaders(headers) && WellFormedHeader(h)
    ensures WellFormedHeaders(headers + [h])
  {
  }

  lemma LengthHeaderIsWellFormed(name: Bytes, n: nat)
    requires OneLine(name) && ':' !in name && Stripped(name)
    ensures WellFormedHeader((name, Decimal(n)))
  {
    ParseDecimal(n);
    var d := Decimal(n);
    NoReturnIsOneLine(d);
    JoinedIsOneLine(name, d);
  }

  /**
    A corrupted response is still a well-framed message: the start line and the other headers as
    they were, one Content-Length with the new length, and a prefix of the body.
   */
  lemma CorruptedReadsBack(m: Message, toEof: bool)
    requires WellFormed(m) && m.body != ""
    ensures var c := Corrupt(m);
      && Read(Print(c), toEof) == Got(c, "") && WellFormed(c) && Announced(c)
      && c.startLine == m.startLine
      && Without(c.headers, "content-length") == Without(m.headers, "content-length")
      && Only(c.headers, "content-length") == [("content-length", Decimal(|c.body|))]
      && c.body == m.body[..|c.body|]
      && (|c.body| < |m.body| <==> |m.body| >= 2)
  {
    var c := Corrupt(m);
    var name, value := "content-length", Decimal(|c.body|);
    WithoutIsWellFormed(m.headers, name);
    LengthHeaderIsWellFormed(name, |c.body|);
    AppendIsWellFormed(Without(m.headers, name), (name, value));
    FindAmongOthers(m.headers, name, (name, value));
    ParseDecimal(|c.body|);
    WithoutTwice(m.headers, name, value);
    OnlyTheNewOne(m.headers, name, value);
    RoundTrip(c, toEof);
  }

  /** The body is cut to half of its length, rounded down, but to no less than one byte. */
  lemma CorruptedIsHalf(m: Message)
    ensures m.body == "" ==> Corrupt(m) == m
    ensures m.body != "" ==>
      |Corrupt(m).body| == (if |m.body| == 1 then 1 else |m.body| / 2) && Corrupt(m).body <= m.body
  {
  }

  /** A dropped response is never read as a message, when it announced its length. */
  lemma DroppedIsNoMessage(m: Message)
    requires WellFormed(m) && Announced(m)
    ensures !Read(Reply(Drop, true, m), true).Got?
  {
    ReplyDrop(m);
    HalfIsNoMessage(m, Print(m));
  }

  lemma ReplyDrop(m: Message)
    ensures Reply(Drop, true, m) == Print(m)[..|Print(m)| / 2]
  {
  }

  lemma HalfIsNoMessage(m: Message, raw: Bytes)
    requires WellFormed(m) && Announced(m) && raw == Print(m)
    ensures !Read(raw[..|raw| / 2], true).Got?
  {
    assert 0 <= |raw| / 2 < |raw|;
    CutMessageIsNoMessage(m, |raw| / 2);
  }

  /** What a client reads of a dropped response, whatever it announced. */
  function AfterDrop(m: Message): Reading
    requires BodyLength(m.headers).Some?
  {
    CutReading(m, |Print(m)| / 2)
  }

  lemma HeadAndBody(m: Message)
    ensures |Print(m)| == |Print(m.(body := ""))| + |m.body| && |Print(m.(body := ""))| > 0
  {
  }

  lemma CutInHalf(m: Message, raw: Bytes)
    requires WellFormed(m) && Framed(m, true) && raw == Print(m) && |raw| > 0
    ensures Read(raw[..|raw| / 2], true) == CutReading(m, |raw| / 2)
  {
    CutReads(m, |raw| / 2);
  }

  /**
    A dropped response is delivered all the same, with a shorter body, exactly when it announced no
    length and its body is at least as long as its head.
   */
  lemma DropDeliversIff(m: Message)
    requires WellFormed(m) && Framed(m, true)
    ensures Read(Reply(Drop, true, m), true) == AfterDrop(m)
    ensures AfterDrop(m).Got? <==> BodyLength(m.headers).value <= 0 && |m.body| >= |Print(m.(body := ""))|
    ensures AfterDrop(m).Got? ==> |AfterDrop(m).message.body| < |m.body|
  {
    ReplyDrop(m);
    HeadAndBody(m);
    CutInHalf(m, Print(m));
  }

  /** For one, a response without headers whose body outweighs its start line. */
  lemma BareDropDelivers(startLine: Bytes, body: Bytes)
    requires OneLine(startLine) && |body| >= |startLine| + 4
    ensures Read(Reply(Drop, true, Message(startLine, [], body)), true).Got?
  {
    DropDeliversIff(Message(startLine, [], body));
  }

  /** Without a fault the client reads what the proxy read upstream. */
  lemma TransparentWhenHealthy(stream: Bytes, mode: FaultMode)
    requires Read(stream, true).Got?
    ensures Read(Reply(mode, false, Read(stream, true).message), true) == Got(Read(stream, true).message, "")
  {
    ParsePrintParse(stream, true);
  }

  /** Replacing or dropping one header leaves the others' values alone. */
  lemma EditKeeps(headers: Headers, name: Bytes, value: Bytes, wanted: Bytes)
    requires |name| != |wanted|
    ensures Find(Without(headers, name), wanted) == Find(headers, wanted)
    ensures Find(Without(headers, name) + [(name, value)], wanted) == Find(headers, wanted)
  {
    assert |Lower(name)| != |Lower(wanted)|;
    FindUntouched(headers, name, wanted);
    FindAppend(Without(headers, name), (name, value), wanted);
  }

  lemma EditIsWellFormed(headers: Headers, name: Bytes, value: Bytes)
    requires WellFormedHeaders(headers) && WellFormedHeader((name, value))
    ensures WellFormedHeaders(Without(headers, name) + [(name, value)])
  {
    WithoutIsWellFormed(headers, name);
    AppendIsWellFormed(Without(headers, name), (name, value));
  }

  lemma ReplacedAndDropped(headers: Headers, name: Bytes, value: Bytes, dropped: Bytes, wanted: Bytes)
    requires WellFormedHeaders(headers) && WellFormedHeader((name, value))
    requires |name| != |wanted| && |dropped| != |wanted|
    ensures var edited := Without(Without(headers, name) + [(name, value)], dropped);
            WellFormedHeaders(edited) && Find(edited, wanted) == Find(headers, wanted)
  {
    EditIsWellFormed(headers, name, value);
    var added := Without(headers, name) + [(name, value)];
    WithoutIsWellFormed(added, dropped);
    EditKeeps(headers, name, value, wanted);
    EditKeeps(added, dropped, value, wanted);
  }

  lemma ConnectionHeader(name: Bytes)
    requires name in {"Connection", "connection"}
    ensures WellFormedHeader((name, "close"))
  {
    assert forall i | 0 <= i < |name| :: name[i] != '\r' && name[i] != ':';
    PlainHeader(name, "close");
  }

  lemma OneShotHeaders(headers: Headers)
    requires WellFormedHeaders(headers)
    ensures var edited := SetAndDrop(headers, "Connection", "close", "Keep-Alive");
            WellFormedHeaders(edited) && Find(edited, "content-length") == Find(headers, "content-length")
  {
    ConnectionHeader("Connection");
    ReplacedAndDropped(headers, "Connection", "close", "Keep-Alive", "content-length");
  }

  /** One header stands there once, another not at all, and the rest as before and in order. */
  predicate SetOnce(edited: Headers, headers: Headers, name: Bytes, value: Bytes, other: Bytes) {
    && Only(edited, name) == [(name, value)] && Find(edited, other) == None
    && Without(Without(edited, name), other) == Without(Without(headers, name), other)
  }

  lemma SetAndDropMeans(headers: Headers, name: Bytes, value: Bytes, other: Bytes)
    requires name != "" && other != "" && LowerChar(name[0]) != LowerChar(other[0])
    ensures SetOnce(SetAndDrop(headers, name, value, other), headers, name, value, other)
  {
    assert Lower(name)[0] == LowerChar(name[0]) && Lower(other)[0] == LowerChar(other[0]);
    var added := Without(headers, name) + [(name, value)];
    OnlyTheNewOne(headers, name, value);
    OnlyAmongOthers(added, other, name);
    FindAmongOthers(added, other, (other, value));
    WithoutCommutes(added, other, name);
    WithoutCommutes(Without(added, name), other, other);
    WithoutTwice(headers, name, value);
  }

  predicate ForOneConnection(edited: Headers, headers: Headers) {
    SetOnce(edited, headers, "Connection", "close", "Keep-Alive")
  }

  lemma OneShotMeans(m: Message)
    ensures ForOneConnection(OneShot(m).headers, m.headers)
  {
    SetAndDropMeans(m.headers, "Connection", "close", "Keep-Alive");
  }

  /**
    The request that is sent on is read upstream as the same request for one connection: it is to
    close, nothing keeps it alive, and the other headers are as they were and in order.
   */
  lemma ForwardedRequestReadsBack(m: Message)
    requires WellFormed(m) && Framed(m, false)
    ensures Read(Print(OneShot(m)), false) == Got(OneShot(m), "")
    ensures OneShot(m).startLine == m.startLine && OneShot(m).body == m.body
    ensures ForOneConnection(OneShot(m).headers, m.headers)
  {
    OneShotIsFramed(m);
    RoundTrip(OneShot(m), false);
    OneShotMeans(m);
  }

  lemma OneShotIsFramed(m: Message)
    requires WellFormed(m) && Framed(m, false)
    ensures WellFormed(OneShot(m)) && Framed(OneShot(m), false)
  {
    OneShotHeaders(m.headers);
  }

  lemma FindSecond(first: (Bytes, Bytes), second: (Bytes, Bytes), third: (Bytes, Bytes), name: Bytes)
    requires |first.0| != |name| && second.0 == name
    requires WellFormedHeader(first) && WellFormedHeader(second) && WellFormedHeader(third)
    ensures Find([first, second, third], name) == Some(second.1)
    ensures WellFormedHeaders([first, second, third])
  {
    assert |Lower(first.0)| != |Lower(name)|;
    assert [first, second, third][1..][0] == second;
  }

  lemma ContentTypeHeader()
    ensures WellFormedHeader(("content-type", "application/json"))
  {
    PlainHeader("content-type", "application/json");
  }

  lemma ErrorHeaders(length: Bytes)
    requires WellFormedHeader(("content-length", length))
    ensures var headers := [("content-type", "application/json"), ("content-length", length), ("connection", "close")];
            WellFormedHeaders(headers) && Find(headers, "content-length") == Some(length)
  {
    ContentTypeHeader();
    ConnectionHeader("connection");
    FindSecond(("content-type", "application/json"), ("content-length", length), ("connection", "close"),
      "content-length");
  }

  lemma StatusLine(status: nat)
    ensures OneLine("HTTP/1.1 " + Decimal(status) + " Service Unavailable")
  {
    var d := Decimal(status);
    assert '\r' !in d;
    assert '\r' !in "HTTP/1.1 " && '\r' !in " Service Unavailable";
    NoReturnIsOneLine("HTTP/1.1 " + d + " Service Unavailable");
  }

  /** The proxy's own answer is well formed: the fault is its status and nothing else. */
  lemma ErrorResponseReadsBack(status: nat, toEof: bool)
    ensures Read(Print(ErrorMessage(status)), toEof) == Got(ErrorMessage(status), "")
  {
    StatusLine(status);
    LengthHeaderIsWellFormed("content-length", |ERROR_BODY|);
    ErrorHeaders(Decimal(|ERROR_BODY|));
    ParseDecimal(|ERROR_BODY|);
    RoundTrip(ErrorMessage(status), toEof);
  }

  // ----- one connection, by what upstream answers -----

  /** The response to the request comes back from upstream, framed by its length or by the end of the stream. */
  ghost predicate Responds(upstream: Bytes -> Bytes, request: Message, response: Message) {
    WellFormed(response) && Framed(response, true) && upstream(Print(OneShot(request))) == Print(response)
  }

  /** A request that is not hit, or only late, is answered with the very bytes that upstream sent. */
  lemma RelaysAsSent(config: FaultConfig, inject: bool, request: Message, upstream: Bytes -> Bytes, response: Message)
    requires Responds(upstream, request, response)
    requires !inject || config.mode == Latency
    ensures SentUpstream(config, inject, request) == Some(Print(OneShot(request)))
    ensures WrittenBack(config, inject, request, upstream) == Some(upstream(Print(OneShot(request))))
  {
    RoundTrip(response, true);
    WrittenFor(config, inject, request, upstream, response);
    UnhitReply(config.mode, inject, response);
  }

  lemma WrittenFor(config: FaultConfig, inject: bool, request: Message, upstream: Bytes -> Bytes, response: Message)
    requires !(inject && config.mode == ErrorCode) && Read(upstream(Print(OneShot(request))), true) == Got(response, "")
    ensures SentUpstream(config, inject, request) == Some(Print(OneShot(request)))
    ensures WrittenBack(config, inject, request, upstream) == Some(Reply(config.mode, inject, response))
  {
  }

  lemma UnhitReply(mode: FaultMode, inject: bool, response: Message)
    requires !inject || mode == Latency
    ensures Reply(mode, inject, response) == Print(response)
  {
  }

  /** One that is hit: nothing is sent and the proxy answers itself, or the answer comes back damaged. */
  lemma RelaysDamaged(config: FaultConfig, request: Message, upstream: Bytes -> Bytes, response: Message)
    requires Responds(upstream, request, response)
    ensures SentUpstream(config, true, request)
            == if config.mode == ErrorCode then None else Some(Print(OneShot(request)))
    ensures var reply := WrittenBack(config, true, request, upstream);
      && reply.Some?
      && (config.mode == ErrorCode ==> Read(reply.value, true) == Got(ErrorMessage(config.errorStatus), ""))
      && (config.mode == CorruptBody && response.body == "" ==> reply.value == Print(response))
      && (config.mode == CorruptBody && response.body != "" ==> Read(reply.value, true) == Got(Corrupt(response), ""))
      && (config.mode == Drop ==> reply.value == Print(response)[..|Print(response)| / 2])
  {
    RoundTrip(response, true);
    ErrorResponseReadsBack(config.errorStatus, true);
    if config.mode != ErrorCode { WrittenFor(config, true, request, upstream, response); }
    if response.body != "" { CorruptedReadsBack(response, true); }
  }
}
