/**
  HTTP messages on the wire: proxy/server.py, `HttpMessage` and `read_message`. Bytes are
  characters, one per byte; a stream is what a peer sent before it closed the connection.
 */
module Http {
  import opened Json
  import opened Text

  type Bytes = string

  type Headers = seq<(Bytes, Bytes)>

  /** One parsed message. Headers are a list: names may repeat. */
  datatype Message = Message(startLine: Bytes, headers: Headers, body: Bytes)

  const CRLF: Bytes := "\r\n"

  // ----- headers -----

  predicate Named(header: (Bytes, Bytes), name: Bytes) { Lower(header.0) == Lower(name) }

  /** A name is the same in any case, and no other name is. */
  lemma NamedMeans(header: (Bytes, Bytes), name: Bytes)
    ensures Named(header, name) <==>
      |header.0| == |name| && forall i | 0 <= i < |name| :: SameLetter(header.0[i], name[i])
  {
    LowerMeans(header.0, name);
  }

  /** `header(name)`: the first value under that name, in any case. */
  function Find(headers: Headers, name: Bytes): Option<Bytes> {
    if headers == [] then None
    else if Named(headers[0], name) then Some(headers[0].1)
    else Find(headers[1..], name)
  }

  function Without(headers: Headers, name: Bytes): Headers {
    if headers == [] then []
    else if Named(headers[0], name) then Without(headers[1..], name)
    else [headers[0]] + Without(headers[1..], name)
  }

  // ----- what editing headers does -----

  lemma {:induction false} FindAmongOthers(headers: Headers, name: Bytes, other: (Bytes, Bytes))
    ensures Find(Without(headers, name), name) == None
    ensures Find(Without(headers, name) + [other], name) == if Named(other, name) then Some(other.1) else None
  {
    if headers == [] {
      assert Without(headers, name) + [other] == [other];
    } else {
      FindAmongOthers(headers[1..], name, other);
      var rest := Without(headers[1..], name);
      if !Named(headers[0], name) {
        assert ([headers[0]] + rest)[1..] == rest;
        assert (([headers[0]] + rest) + [other])[1..] == rest + [other];
      }
    }
  }

  lemma {:induction false} FindUntouched(headers: Headers, name: Bytes, wanted: Bytes)
    requires Lower(name) != Lower(wanted)
    ensures Find(Without(headers, name), wanted) == Find(headers, wanted)
  {
    if headers != [] {
      FindUntouched(headers[1..], name, wanted);
      if !Named(headers[0], name) {
        assert ([headers[0]] + Without(headers[1..], name))[1..] == Without(headers[1..], name);
      }
    }
  }

  lemma {:induction false} FindAppend(headers: Headers, last: (Bytes, Bytes), wanted: Bytes)
    requires !Named(last, wanted)
    ensures Find(headers + [last], wanted) == Find(headers, wanted)
  {
    if headers == [] {
      assert headers + [last] == [last];
    } else {
      FindAppend(headers[1..], last, wanted);
      assert (headers + [last])[1..] == headers[1..] + [last];
    }
  }

  lemma {:induction false} WithoutTwice(headers: Headers, name: Bytes, value: Bytes)
    ensures Without(Without(headers, name) + [(name, value)], name) == Without(headers, name)
  {
    if headers == [] {
      assert Without(headers, name) + [(name, value)] == [(name, value)];
    } else {
      WithoutTwice(headers[1..], name, value);
      var rest := Without(headers[1..], name);
      if !Named(headers[0], name) {
        assert (([headers[0]] + rest) + [(name, value)])[1..] == rest + [(name, value)];
      }
    }
  }

  /** The headers under a name. */
  function Only(headers: Headers, name: Bytes): Headers {
    if headers == [] then []
    else if Named(headers[0], name) then [headers[0]] + Only(headers[1..], name)
    else Only(headers[1..], name)
  }

  lemma {:induction false} OnlyTheNewOne(headers: Headers, name: Bytes, value: Bytes)
    ensures Only(Without(headers, name) + [(name, value)], name) == [(name, value)]
  {
    if headers == [] {
      assert Without(headers, name) + [(name, value)] == [(name, value)];
    } else {
      OnlyTheNewOne(headers[1..], name, value);
      var rest := Without(headers[1..], name);
      if !Named(headers[0], name) {
        assert (([headers[0]] + rest) + [(name, value)])[1..] == rest + [(name, value)];
      }
    }
  }

  /** Setting one header: it stands there once, and every other name finds what it found. */
  lemma FindAfterSetting(headers: Headers, name: Bytes, value: Bytes, wanted: Bytes)
    requires Lower(name) != Lower(wanted)
    ensures Find(Without(headers, name) + [(name, value)], wanted) == Find(headers, wanted)
  {
    FindUntouched(headers, name, wanted);
    FindAppend(Without(headers, name), (name, value), wanted);
  }

  lemma {:induction false} OnlyAmongOthers(headers: Headers, dropped: Bytes, name: Bytes)
    requires Lower(dropped) != Lower(name)
    ensures Only(Without(headers, dropped), name) == Only(headers, name)
  {
    if headers != [] {
      OnlyAmongOthers(headers[1..], dropped, name);
      var rest := Without(headers[1..], dropped);
      if !Named(headers[0], dropped) { assert ([headers[0]] + rest)[1..] == rest; }
    }
  }

  lemma {:induction false} WithoutCommutes(headers: Headers, a: Bytes, b: Bytes)
    ensures Without(Without(headers, a), b) == Without(Without(headers, b), a)
    ensures Without(Without(headers, a), a) == Without(headers, a)
  {
    if headers != [] {
      WithoutCommutes(headers[1..], a, b);
      HeadWithout(headers[0], Without(headers[1..], a), b);
      HeadWithout(headers[0], Without(headers[1..], b), a);
      HeadWithout(headers[0], Without(headers[1..], a), a);
    }
  }

  lemma HeadWithout(head: (Bytes, Bytes), rest: Headers, name: Bytes)
    ensures Without([head] + rest, name) == (if Named(head, name) then [] else [head]) + Without(rest, name)
  {
    assert ([head] + rest)[1..] == rest;
  }

  // ----- printing -----

  function HeaderLine(header: (Bytes, Bytes)): Bytes { header.0 + ": " + header.1 }

  function PrintHeaders(headers: Headers): Bytes {
    if headers == [] then "" else PrintHeaders(headers[..|headers| - 1]) + HeaderLine(headers[|headers| - 1]) + CRLF
  }

  /** `to_bytes`. */
  function Print(m: Message): Bytes { m.startLine + CRLF + PrintHeaders(m.headers) + CRLF + m.body }

  // ----- reading -----

  predicate StartsCrlf(s: Bytes) { |s| >= 2 && s[0] == '\r' && s[1] == '\n' }

  /** Where the first CRLF CRLF is: `readuntil(HEADER_END)`, or None when the stream ends first. */
  function FindEnd(s: Bytes): (n: Option<nat>)
    ensures n.Some? ==> n.value + 4 <= |s|
  {
    if |s| < 4 then None
    else if StartsCrlf(s) && StartsCrlf(s[2..]) then Some(0)
    else
      match FindEnd(s[1..])
      case None => None
      case Some(n) => Some(n + 1)
  }

  /** `s.split(CRLF)`. */
  function SplitLines(s: Bytes): (lines: seq<Bytes>)
    ensures |lines| >= 1
    decreases |s|
  {
    if s == "" then [""]
    else if StartsCrlf(s) then [""] + SplitLines(s[2..])
    else
      var rest := SplitLines(s[1..]);
      [[s[0]] + rest[0]] + rest[1..]
  }

  /** The text before the first colon, and the text after it. */
  function Partition(line: Bytes): (Bytes, Bytes)
    requires ':' in line
  {
    if line[0] == ':' then ("", line[1..])
    else
      var (key, value) := Partition(line[1..]);
      ([line[0]] + key, value)
  }

  /** A line with a colon is a header, trimmed; a line without one is passed over. */
  function ParseLine(line: Bytes): Headers {
    if ':' in line then [(Strip(Partition(line).0), Strip(Partition(line).1))] else []
  }

  /** The concatenation of f over a list. */
  function FlatMap<A, B>(f: A -> seq<B>, xs: seq<A>): seq<B> {
    if xs == [] then [] else FlatMap(f, xs[..|xs| - 1]) + f(xs[|xs| - 1])
  }

  function ParseLines(lines: seq<Bytes>): Headers { FlatMap(ParseLine, lines) }

  /**
    What reading gives. NoMessage: the stream ended inside the head. Incomplete: it ended inside
    the body (IncompleteReadError). BadLength: Content-Length is no integer (ValueError).
   */
  datatype Reading = Got(message: Message, rest: Bytes) | NoMessage | Incomplete | BadLength

  /** The announced length; 0 when there is none, None when it is no integer. */
  function BodyLength(headers: Headers): Option<int> {
    match Find(headers, "content-length")
    case None => Some(0)
    case Some(text) => ParseInt(text)
  }

  /** The body rule of `read_message`, for the bytes after the head. */
  function ReadBody(startLine: Bytes, headers: Headers, length: Option<int>, rest: Bytes, toEof: bool): Reading {
    if length.None? then BadLength
    else if length.value > 0 then
      if |rest| < length.value then Incomplete
      else Got(Message(startLine, headers, rest[..length.value]), rest[length.value..])
    else if toEof then Got(Message(startLine, headers, rest), "")
    else Got(Message(startLine, headers, ""), rest)
  }

  /** `read_message`. */
  function Read(stream: Bytes, toEof: bool): Reading {
    match FindEnd(stream)
    case None => NoMessage
    case Some(n) =>
      var lines := SplitLines(stream[..n]);
      var headers := ParseLines(lines[1..]);
      ReadBody(lines[0], headers, BodyLength(headers), stream[n + 4..], toEof)
  }

  // ----- the same, as the source does it: objects and loops -----

  class HttpMessage {
    const startLine: Bytes
    var headers: Headers
    var body: Bytes

    function Model(): Message
      reads this
    {
      Message(startLine, headers, body)
    }

    constructor (startLine: Bytes, headers: Headers, body: Bytes)
      ensures Model() == Message(startLine, headers, body)
    {
      this.startLine, this.headers, this.body := startLine, headers, body;
    }

    method Header(name: Bytes) returns (value: Option<Bytes>)
      ensures value == Find(headers, name)
    {
      for i := 0 to |headers|
        invariant Find(headers, name) == Find(headers[i..], name)
      {
        if Lower(headers[i].0) == Lower(name) {
          return Some(headers[i].1);
        }
      }
      value := None;
    }

    /** The headers of other names. */
    method Others(name: Bytes) returns (kept: Headers)
      ensures kept == Without(headers, name)
    {
      kept := [];
      for i := 0 to |headers|
        invariant kept + Without(headers[i..], name) == Without(headers, name)
      {
        if Lower(headers[i].0) != Lower(name) {
          kept := kept + [headers[i]];
        }
      }
    }

    method ReplaceHeader(name: Bytes, value: Bytes)
      modifies this`headers
      ensures headers == Without(old(headers), name) + [(name, value)]
      ensures Find(headers, name) == Some(value) && Only(headers, name) == [(name, value)]
      ensures forall other | Lower(other) != Lower(name) :: Find(headers, other) == Find(old(headers), other)
    {
      var kept := Others(name);
      headers := kept + [(name, value)];
      FindAmongOthers(old(headers), name, (name, value));
      OnlyTheNewOne(old(headers), name, value);
      forall other | Lower(other) != Lower(name) ensures Find(headers, other) == Find(old(headers), other) {
        FindAfterSetting(old(headers), name, value, other);
      }
    }

    method DropHeader(name: Bytes)
      modifies this`headers
      ensures headers == Without(old(headers), name)
      ensures Find(headers, name) == None
      ensures forall other | Lower(other) != Lower(name) :: Find(headers, other) == Find(old(headers), other)
    {
      headers := Others(name);
      FindAmongOthers(old(headers), name, (name, ""));
      forall other | Lower(other) != Lower(name) ensures Find(headers, other) == Find(old(headers), other) {
        FindUntouched(old(headers), name, other);
      }
    }

    method ToBytes() returns (bytes: Bytes)
      ensures bytes == Print(Model())
    {
      var head := startLine + CRLF;
      for i := 0 to |headers|
        invariant head == startLine + CRLF + PrintHeaders(headers[..i])
      {
        assert headers[..i + 1][..i] == headers[..i];
        head := head + headers[i].0 + ": " + headers[i].1 + CRLF;
      }
      assert headers[..|headers|] == headers;
      bytes := head + CRLF + body;
    }
  }

  method ReadMessage(stream: Bytes, toEof: bool) returns (reading: Reading)
    ensures reading == Read(stream, toEof)
  {
    var end := FindEnd(stream);
    if end.None? {
      return NoMessage;
    }
    var lines := SplitLines(stream[..end.value]);
    var headers := ReadFields(lines[1..]);
    reading := ReadBody(lines[0], headers, BodyLength(headers), stream[end.value + 4..], toEof);
  }

  method ReadFields(lines: seq<Bytes>) returns (headers: Headers)
    ensures headers == ParseLines(lines)
  {
    headers := [];
    for i := 0 to |lines|
      invariant headers == ParseLines(lines[..i])
    {
      assert lines[..i + 1][..i] == lines[..i];
      if ':' in lines[i] {
        var parts := Partition(lines[i]);
        headers := headers + [(Strip(parts.0), Strip(parts.1))];
      }
    }
    assert lines[..|lines|] == lines;
  }

  // ----- lines -----

  /** The bytes hold no CRLF. */
  ghost predicate OneLine(s: Bytes) { forall i: nat :: !CrlfAt(s, i) }

  predicate CrlfAt(s: Bytes, i: nat) { i + 1 < |s| && s[i] == '\r' && s[i + 1] == '\n' }

  lemma OneLineTail(l: Bytes)
    requires OneLine(l) && l != ""
    ensures OneLine(l[1..]) && !StartsCrlf(l)
  {
    assert !CrlfAt(l, 0);
    forall i: nat ensures !CrlfAt(l[1..], i) { assert !CrlfAt(l, i + 1); }
  }

  lemma {:induction false} SplitFirstLine(l: Bytes, rest: Bytes)
    requires OneLine(l)
    ensures SplitLines(l) == [l]
    ensures SplitLines(l + CRLF + rest) == [l] + SplitLines(rest)
  {
    if l == "" {
      var s := l + CRLF + rest;
      assert StartsCrlf(s) && s[2..] == rest;
    } else {
      OneLineTail(l);
      SplitFirstLine(l[1..], rest);
      var s := l + CRLF + rest;
      assert s[1..] == l[1..] + CRLF + rest;
      assert s[1] == if |l| > 1 then l[1] else '\r';
      assert l == [l[0]] + l[1..];
    }
  }

  /** A line that is not the last one is stepped over. */
  lemma {:induction false} FindEndSkipsLine(l: Bytes, rest: Bytes)
    requires OneLine(l) && !StartsCrlf(rest)
    ensures FindEnd(l + CRLF + rest) ==
      match FindEnd(rest) case None => None case Some(n) => Some(|l| + 2 + n)
  {
    var s := l + CRLF + rest;
    if l == "" {
      assert s[2..] == rest && s[1..] == "\n" + rest && s[1..][1..] == rest;
      assert !StartsCrlf(s[1..]);
    } else {
      OneLineTail(l);
      FindEndSkipsLine(l[1..], rest);
      assert s[1..] == l[1..] + CRLF + rest;
      assert s[1] == if |l| > 1 then l[1] else '\r';
    }
  }

  lemma {:induction false} FindEndAfterLastLine(l: Bytes, body: Bytes)
    requires OneLine(l)
    ensures FindEnd(l + CRLF + (CRLF + body)) == Some(|l|)
  {
    var s := l + CRLF + (CRLF + body);
    if l == "" {
      assert s[2..] == CRLF + body;
    } else {
      OneLineTail(l);
      FindEndAfterLastLine(l[1..], body);
      assert s[1..] == l[1..] + CRLF + (CRLF + body);
      assert s[1] == if |l| > 1 then l[1] else '\r';
    }
  }

  /** The lines of a head, each with the CRLF before it. */
  function Tail(lines: seq<Bytes>): Bytes {
    if lines == [] then "" else CRLF + lines[0] + Tail(lines[1..])
  }

  ghost predicate HeaderLines(lines: seq<Bytes>) {
    forall i | 0 <= i < |lines| :: lines[i] != "" && OneLine(lines[i])
  }

  lemma {:induction false} HeadEnds(first: Bytes, lines: seq<Bytes>, body: Bytes)
    requires OneLine(first) && HeaderLines(lines)
    ensures FindEnd(first + Tail(lines) + CRLF + CRLF + body) == Some(|first + Tail(lines)|)
    decreases lines
  {
    if lines == [] {
      FindEndAfterLastLine(first, body);
      assert first + Tail(lines) + CRLF + CRLF + body == first + CRLF + (CRLF + body);
    } else {
      var next, more := lines[0], lines[1..];
      var rest := next + Tail(more) + CRLF + CRLF + body;
      HeadEnds(next, more, body);
      NoBlankLine(next, Tail(more), CRLF + CRLF + body);
      assert next + Tail(more) + (CRLF + CRLF + body) == rest;
      FindEndSkipsLine(first, rest);
      Regroup(first, next, Tail(more), CRLF, body);
    }
  }

  lemma Regroup(a: Bytes, b: Bytes, c: Bytes, crlf: Bytes, body: Bytes)
    ensures a + (crlf + b + c) + crlf + crlf + body == a + crlf + (b + c + crlf + crlf + body)
  {
  }

  lemma NoBlankLine(next: Bytes, tail: Bytes, end: Bytes)
    requires next != "" && OneLine(next)
    requires (tail == "" || tail[0] == '\r') && end != "" && end[0] == '\r'
    ensures !StartsCrlf(next + tail + end)
  {
    var s := next + tail + end;
    OneLineTail(next);
    assert s[0] == next[0];
    assert s[1] == if |next| > 1 then next[1] else '\r';
  }

  lemma {:induction false} HeadSplits(first: Bytes, lines: seq<Bytes>)
    requires OneLine(first) && HeaderLines(lines)
    ensures SplitLines(first + Tail(lines)) == [first] + lines
    decreases lines
  {
    if lines == [] {
      SplitFirstLine(first, "");
      assert first + Tail(lines) == first;
    } else {
      var next, more := lines[0], lines[1..];
      HeadSplits(next, more);
      SplitFirstLine(first, next + Tail(more));
      Assoc(CRLF, next, Tail(more));
      Assoc(first, CRLF, next + Tail(more));
      assert [next] + more == lines;
    }
  }

  // ----- messages that print and read back -----

  ghost predicate WellFormedHeader(h: (Bytes, Bytes)) {
    ':' !in h.0 && Stripped(h.0) && Stripped(h.1) && OneLine(HeaderLine(h))
  }

  ghost predicate WellFormedHeaders(headers: Headers) {
    forall i | 0 <= i < |headers| :: WellFormedHeader(headers[i])
  }

  /** Fields that survive printing: trimmed, on one line, and no colon in a name. */
  ghost predicate WellFormed(m: Message) {
    OneLine(m.startLine) && WellFormedHeaders(m.headers)
  }

  /** The body is what the reader will take for it: Content-Length bytes, or all up to the end. */
  predicate Framed(m: Message, toEof: bool) { FramedBy(BodyLength(m.headers), m.body, toEof) }

  predicate FramedBy(length: Option<int>, body: Bytes, toEof: bool) {
    && length.Some?
    && if length.value > 0 then |body| == length.value else toEof || body == ""
  }

  function Map<A, B>(g: A -> B, xs: seq<A>): (ys: seq<B>)
    ensures |ys| == |xs|
    ensures forall i | 0 <= i < |xs| :: ys[i] == g(xs[i])
  {
    if xs == [] then [] else Map(g, xs[..|xs| - 1]) + [g(xs[|xs| - 1])]
  }

  function LinesOf(headers: Headers): seq<Bytes> { Map(HeaderLine, headers) }

  lemma {:induction false} TailAppend(lines: seq<Bytes>, l: Bytes)
    ensures Tail(lines + [l]) == Tail(lines) + CRLF + l
  {
    if lines == [] {
      assert lines + [l] == [l];
    } else {
      TailAppend(lines[1..], l);
      assert (lines + [l])[1..] == lines[1..] + [l];
    }
  }

  lemma {:induction false} PrintedHeaders(headers: Headers)
    ensures CRLF + PrintHeaders(headers) == Tail(LinesOf(headers)) + CRLF
  {
    if headers != [] {
      var init, last := headers[..|headers| - 1], HeaderLine(headers[|headers| - 1]);
      PrintedHeaders(init);
      TailAppend(LinesOf(init), last);
    }
  }

  lemma PrintedHead(m: Message, more: Bytes)
    ensures Print(m) + more == m.startLine + Tail(LinesOf(m.headers)) + CRLF + CRLF + (m.body + more)
  {
    PrintedHeaders(m.headers);
    assert Print(m) + more == m.startLine + (CRLF + PrintHeaders(m.headers)) + CRLF + (m.body + more);
  }

  lemma {:induction false} PartitionAt(key: Bytes, value: Bytes)
    requires ':' !in key
    ensures Partition(key + ":" + value) == (key, value)
  {
    var line := key + ":" + value;
    if key == "" {
      assert line[0] == ':' && line[1..] == value;
    } else {
      PartitionAt(key[1..], value);
      assert line[0] == key[0] && line[1..] == key[1..] + ":" + value;
      assert [key[0]] + key[1..] == key;
    }
  }

  lemma StripAfterBlank(value: Bytes)
    requires Stripped(value)
    ensures Strip(" " + value) == value
  {
    StripFixed(value);
    assert (" " + value)[1..] == value;
    assert LeftStrip(" " + value) == LeftStrip(value);
  }

  lemma ParsePrintedLine(h: (Bytes, Bytes))
    requires WellFormedHeader(h)
    ensures ParseLine(HeaderLine(h)) == [h]
  {
    var line := HeaderLine(h);
    assert line == h.0 + ":" + (" " + h.1);
    PartitionAt(h.0, " " + h.1);
    StripFixed(h.0);
    StripAfterBlank(h.1);
    assert line[|h.0|] == ':';
  }

  lemma {:induction false} FlatMapInverse<A, B>(f: A -> seq<B>, g: B -> A, xs: seq<B>)
    requires forall i | 0 <= i < |xs| :: f(g(xs[i])) == [xs[i]]
    ensures FlatMap(f, Map(g, xs)) == xs
  {
    if xs != [] {
      var init, ys := xs[..|xs| - 1], Map(g, xs);
      FlatMapInverse(f, g, init);
      assert ys[..|ys| - 1] == Map(g, init);
      assert xs == init + [xs[|xs| - 1]];
    }
  }

  lemma ParsePrintedLines(headers: Headers)
    requires WellFormedHeaders(headers)
    ensures ParseLines(LinesOf(headers)) == headers
  {
    forall i | 0 <= i < |headers| ensures ParseLine(HeaderLine(headers[i])) == [headers[i]] {
      ParsePrintedLine(headers[i]);
    }
    FlatMapInverse(ParseLine, HeaderLine, headers);
  }

  /** What is read from a printed message, and anything sent after it. */
  lemma ReadPrinted(m: Message, more: Bytes, toEof: bool)
    requires WellFormed(m)
    ensures Read(Print(m) + more, toEof)
            == ReadBody(m.startLine, m.headers, BodyLength(m.headers), m.body + more, toEof)
  {
    var lines := LinesOf(m.headers);
    var head := m.startLine + Tail(lines);
    var stream := Print(m) + more;
    PrintedHead(m, more);
    assert HeaderLines(lines);
    HeadEnds(m.startLine, lines, m.body + more);
    HeadSplits(m.startLine, lines);
    assert stream[..|head|] == head;
    assert stream[|head| + 4..] == m.body + more;
    assert ([m.startLine] + lines)[1..] == lines;
    ParsePrintedLines(m.headers);
  }

  /** Reading a printed message gives the message back exactly when its body is framed. */
  lemma RoundTrip(m: Message, toEof: bool)
    requires WellFormed(m)
    ensures Read(Print(m), toEof) == Got(m, "") <==> Framed(m, toEof)
  {
    ReadPrinted(m, "", toEof);
    assert Print(m) + "" == Print(m) && m.body + "" == m.body;
    WholeBody(m, BodyLength(m.headers), toEof);
  }

  lemma WholeBody(m: Message, length: Option<int>, toEof: bool)
    ensures ReadBody(m.startLine, m.headers, length, m.body, toEof) == Got(m, "")
            <==> FramedBy(length, m.body, toEof)
  {
    assert m.body[..|m.body|] == m.body;
  }

  /** A framed message is cut off the front of a longer stream. */
  lemma ReadsOneMessage(m: Message, more: Bytes)
    requires WellFormed(m) && Framed(m, false)
    ensures Read(Print(m) + more, false) == Got(m, more)
  {
    ReadPrinted(m, more, false);
    assert (m.body + more)[..|m.body|] == m.body && (m.body + more)[|m.body|..] == more;
    assert m.body == "" ==> m.body + more == more;
  }

  /** The end of a head: two line ends in a row, at position n and nowhere before. */
  predicate EndsHead(s: Bytes, n: nat) { n + 4 <= |s| && s[n..n + 4] == "\r\n\r\n" }

  lemma {:induction false} FindEndMeans(s: Bytes)
    ensures FindEnd(s).None? <==> forall n: nat :: !EndsHead(s, n)
    ensures FindEnd(s).Some? ==>
      EndsHead(s, FindEnd(s).value) && forall n: nat | n < FindEnd(s).value :: !EndsHead(s, n)
  {
    if |s| >= 4 {
      FindEndMeans(s[1..]);
      EndsHere(s);
      forall n: nat ensures EndsHead(s[1..], n) <==> EndsHead(s, n + 1) { EndsLater(s, n); }
      forall n: nat | EndsHead(s, n) && n > 0 ensures EndsHead(s[1..], n - 1) { EndsLater(s, n - 1); }
    }
  }

  lemma EndsHere(s: Bytes)
    requires |s| >= 4
    ensures StartsCrlf(s) && StartsCrlf(s[2..]) <==> EndsHead(s, 0)
  {
    var end := "\r\n\r\n";
    assert s[0..4] == end <==> forall i | 0 <= i < 4 :: s[0..4][i] == end[i];
  }

  lemma EndsLater(s: Bytes, n: nat)
    requires s != ""
    ensures EndsHead(s[1..], n) <==> EndsHead(s, n + 1)
  {
    if n + 5 <= |s| { assert s[1..][n..n + 4] == s[n + 1..n + 5]; }
  }

  /**
    What the reader makes of a head and what follows it. Without a length above zero: all of it, read to
    the end, or no body at all; with one: so many bytes, or too few; with a length that is no number:
    nothing. And without the end of a head: nothing either.
   */
  lemma ReadOutcomes(head: Message, rest: Bytes, toEof: bool, stream: Bytes)
    requires WellFormed(head) && head.body == "" && stream == Print(head) + rest
    ensures var length := Find(head.headers, "content-length");
      Read(stream, toEof)
      == if length.Some? && ParseInt(length.value).None? then BadLength
         else if length.Some? && ParseInt(length.value).value > 0 then
           var n := ParseInt(length.value).value;
           if |rest| < n then Incomplete else Got(head.(body := rest[..n]), rest[n..])
         else if toEof then Got(head.(body := rest), "")
         else Got(head, rest)
  {
    ReadPrinted(head, rest, toEof);
    assert head.body + rest == rest;
  }

  lemma NoMessageIff(stream: Bytes, toEof: bool)
    ensures Read(stream, toEof) == NoMessage <==> forall n: nat :: !EndsHead(stream, n)
  {
    FindEndMeans(stream);
    NoEndNoMessage(stream, toEof);
  }

  lemma NoEndNoMessage(stream: Bytes, toEof: bool)
    ensures Read(stream, toEof) == NoMessage <==> FindEnd(stream).None?
  {
    if FindEnd(stream).Some? {
      var n := FindEnd(stream).value;
      var lines := SplitLines(stream[..n]);
      var headers := ParseLines(lines[1..]);
      BodyIsRead(lines[0], headers, BodyLength(headers), stream[n + 4..], toEof);
    }
  }

  lemma BodyIsRead(startLine: Bytes, headers: Headers, length: Option<int>, rest: Bytes, toEof: bool)
    ensures ReadBody(startLine, headers, length, rest, toEof) != NoMessage
  {
  }

  /** White space around a header's name and value does not count, and a line without a colon is no header. */
  lemma HeaderReads(before: Bytes, name: Bytes, behind: Bytes, between: Bytes, value: Bytes, last: Bytes, line: Bytes)
    requires ':' !in before && ':' !in name && ':' !in behind && Stripped(name) && Stripped(value)
    requires IsBlank(before) && IsBlank(behind) && IsBlank(between) && IsBlank(last)
    requires line == before + name + behind + ":" + (between + value + last)
    ensures ParseLine(line) == [(name, value)]
    ensures ':' !in value ==> ParseLine(value) == []
  {
    PartitionAt(before + name + behind, between + value + last);
    StripMeans(before, name, behind);
    StripMeans(between, value, last);
    assert line[|before + name + behind|] == ':';
  }

  // ----- everything that is read is well formed -----

  lemma {:induction false} SplitIntoLines(s: Bytes)
    ensures forall i | 0 <= i < |SplitLines(s)| :: OneLine(SplitLines(s)[i])
    ensures SplitLines(s)[0] != "" ==> s != "" && SplitLines(s)[0][0] == s[0] && !StartsCrlf(s)
    decreases |s|
  {
    if s == "" {
    } else if StartsCrlf(s) {
      SplitIntoLines(s[2..]);
    } else {
      SplitIntoLines(s[1..]);
      var rest := SplitLines(s[1..]);
      assert OneLine(rest[0]);
      var l := [s[0]] + rest[0];
      forall i: nat ensures !CrlfAt(l, i) {
        if i > 0 { assert !CrlfAt(rest[0], i - 1); }
      }
    }
  }

  lemma {:induction false} PartitionSlices(line: Bytes)
    requires ':' in line
    ensures var (key, value) := Partition(line);
            ':' !in key && |key| + 1 + |value| == |line|
            && key == line[..|key|] && value == line[|key| + 1..]
  {
    if line[0] != ':' {
      PartitionSlices(line[1..]);
      var key := Partition(line[1..]).0;
      assert line[1..][..|key|] == line[1..|key| + 1];
      assert [line[0]] + line[1..|key| + 1] == line[..|key| + 1];
      assert line[1..][|key| + 1..] == line[|key| + 2..];
    } else {
      assert line[..0] == "";
    }
  }

  lemma SliceIsOneLine(s: Bytes, i: nat, j: nat)
    requires OneLine(s) && i <= j <= |s|
    ensures OneLine(s[i..j])
  {
    forall k: nat ensures !CrlfAt(s[i..j], k) { assert !CrlfAt(s, i + k); }
  }

  lemma SlicedOneLine(s: Bytes, t: Bytes, i: nat)
    requires OneLine(s) && i + |t| <= |s| && t == s[i..i + |t|]
    ensures OneLine(t) && (':' !in s ==> ':' !in t)
  {
    SliceIsOneLine(s, i, i + |t|);
  }

  lemma StripOneLine(s: Bytes)
    requires OneLine(s)
    ensures OneLine(Strip(s)) && Stripped(Strip(s))
    ensures ':' !in s ==> ':' !in Strip(s)
  {
    StripIsSlice(s);
    SlicedOneLine(s, Strip(s), |s| - |LeftStrip(s)|);
  }

  lemma ParsedLineIsWellFormed(line: Bytes)
    requires OneLine(line)
    ensures WellFormedHeaders(ParseLine(line))
  {
    if ':' in line {
      var (k, v) := Partition(line);
      PartsAreOneLine(line);
      StripOneLine(k);
      StripOneLine(v);
      JoinedIsOneLine(Strip(k), Strip(v));
      assert WellFormedHeader((Strip(k), Strip(v)));
      assert ParseLine(line) == [(Strip(k), Strip(v))];
    }
  }

  lemma PartsAreOneLine(line: Bytes)
    requires OneLine(line) && ':' in line
    ensures OneLine(Partition(line).0) && OneLine(Partition(line).1) && ':' !in Partition(line).0
  {
    PartitionSlices(line);
    var (k, v) := Partition(line);
    SliceIsOneLine(line, 0, |k|);
    SliceIsOneLine(line, |k| + 1, |line|);
    assert line[0..|k|] == k && line[|k| + 1..|line|] == v;
  }

  lemma JoinedIsOneLine(k: Bytes, v: Bytes)
    requires OneLine(k) && OneLine(v)
    ensures OneLine(HeaderLine((k, v)))
  {
    var l := HeaderLine((k, v));
    forall i: nat ensures !CrlfAt(l, i) {
      if i < |k| {
        assert !CrlfAt(k, i);
      } else if i > |k| + 1 {
        assert !CrlfAt(v, i - |k| - 2);
      }
    }
  }

  lemma NoReturnIsOneLine(s: Bytes)
    requires '\r' !in s
    ensures OneLine(s)
  {
  }

  lemma {:induction false} ParsedLinesAreWellFormed(lines: seq<Bytes>)
    requires forall i | 0 <= i < |lines| :: OneLine(lines[i])
    ensures WellFormedHeaders(ParseLines(lines))
  {
    if lines != [] {
      ParsedLinesAreWellFormed(lines[..|lines| - 1]);
      ParsedLineIsWellFormed(lines[|lines| - 1]);
    }
  }

  lemma ReadBodyIsFramed(startLine: Bytes, headers: Headers, length: Option<int>, rest: Bytes, toEof: bool)
    requires ReadBody(startLine, headers, length, rest, toEof).Got?
    ensures var m := ReadBody(startLine, headers, length, rest, toEof).message;
            m.startLine == startLine && m.headers == headers && FramedBy(length, m.body, toEof)
  {
  }

  lemma LinesAreWellFormed(head: Bytes)
    ensures OneLine(SplitLines(head)[0])
    ensures WellFormedHeaders(ParseLines(SplitLines(head)[1..]))
  {
    SplitIntoLines(head);
    ParsedLinesAreWellFormed(SplitLines(head)[1..]);
  }

  lemma ReadIsWellFormed(stream: Bytes, toEof: bool)
    requires Read(stream, toEof).Got?
    ensures WellFormed(Read(stream, toEof).message) && Framed(Read(stream, toEof).message, toEof)
  {
    var n := FindEnd(stream).value;
    var lines := SplitLines(stream[..n]);
    var headers := ParseLines(lines[1..]);
    LinesAreWellFormed(stream[..n]);
    ReadBodyIsFramed(lines[0], headers, BodyLength(headers), stream[n + 4..], toEof);
  }

  /** Whatever stream is accepted, the message read from it prints to bytes that read the same. */
  lemma ParsePrintParse(stream: Bytes, toEof: bool)
    requires Read(stream, toEof).Got?
    ensures var m := Read(stream, toEof).message; Read(Print(m), toEof) == Got(m, "")
  {
    ReadIsWellFormed(stream, toEof);
    RoundTrip(Read(stream, toEof).message, toEof);
  }

  // ----- cut streams -----

  lemma {:induction false} FindEndCut(s: Bytes, k: nat)
    requires k <= |s|
    ensures FindEnd(s[..k]) == match FindEnd(s) case None => None case Some(n) => if n + 4 <= k then Some(n) else None
  {
    if k >= 4 {
      FindEndCut(s[1..], k - 1);
      assert s[..k][1..] == s[1..][..k - 1];
      assert s[..k][2..] == s[2..][..k - 2];
    } else {
      assert FindEnd(s[..k]) == None;
    }
  }

  /** The message announces the length of its body. */
  predicate Announced(m: Message) {
    Find(m.headers, "content-length").Some? && BodyLength(m.headers) == Some(|m.body|)
  }

  /** A cut that spares the head leaves the head and a shorter body. */
  lemma CutInsideBody(m: Message, k: nat)
    requires WellFormed(m) && |Print(m)| - |m.body| <= k <= |Print(m)|
    ensures Read(Print(m)[..k], true)
            == ReadBody(m.startLine, m.headers, BodyLength(m.headers), m.body[..k - (|Print(m)| - |m.body|)], true)
  {
    var short := m.(body := m.body[..k - (|Print(m)| - |m.body|)]);
    assert Print(m)[..k] == Print(short);
    ReadPrinted(short, "", true);
    assert Print(short) + "" == Print(short) && short.body + "" == short.body;
  }

  lemma CutInsideHead(m: Message, k: nat)
    requires WellFormed(m) && k < |Print(m)| - |m.body|
    ensures Read(Print(m)[..k], true) == NoMessage
  {
    var lines := LinesOf(m.headers);
    PrintedHead(m, "");
    assert Print(m) + "" == Print(m) && m.body + "" == m.body;
    HeadEnds(m.startLine, lines, m.body);
    FindEndCut(Print(m), k);
  }

  /**
    What any cut leaves of a message: nothing, an unfinished body, or, when no length was announced
    that is greater than zero, the message with a shorter body.
   */
  lemma CutReads(m: Message, k: nat)
    requires WellFormed(m) && Framed(m, true) && k < |Print(m)|
    ensures Read(Print(m)[..k], true) == CutReading(m, k)
  {
    if k < |Print(m)| - |m.body| { CutInsideHead(m, k); } else { CutInsideBody(m, k); }
  }

  function CutReading(m: Message, k: nat): Reading
    requires k < |Print(m)| && BodyLength(m.headers).Some?
  {
    var head := |Print(m)| - |m.body|;
    if k < head then NoMessage
    else if BodyLength(m.headers).value > 0 then Incomplete
    else Got(m.(body := m.body[..k - head]), "")
  }

  /** Framing is prefix-free: no part of an announced message reads as a message. */
  lemma CutMessageIsNoMessage(m: Message, k: nat)
    requires WellFormed(m) && Announced(m) && k < |Print(m)|
    ensures Read(Print(m)[..k], true) == if k < |Print(m)| - |m.body| then NoMessage else Incomplete
  {
    if k < |Print(m)| - |m.body| { CutInsideHead(m, k); } else { CutInsideBody(m, k); }
  }
}
