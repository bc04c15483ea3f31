/** Incremental parsing of language-server messages (`extensions/code-intel/client.ts`). */
module LspFraming {
  // Framed as section "Base Protocol" of the Language Server Protocol 3.17 says.

  import opened Wrappers

  type Byte = b: int | 0 <= b < 256

  type Bytes = seq<Byte>

  const MAX_MESSAGE := 2 * 1024 * 1024
  const MAX_HEADER := 8192
  const MAX_TRAFFIC := 32 * 1024 * 1024
  const MAX_MESSAGES := 10000
  const MAX_CHUNK := 65536

  const TERMINATOR: Bytes := [13, 10, 13, 10]

  // ------------------------------------------------------------------- headers

  predicate TerminatorAt(buffer: Bytes, i: nat) {
    i + 4 <= |buffer| && buffer[i] == 13 && buffer[i + 1] == 10 && buffer[i + 2] == 13 && buffer[i + 3] == 10
  }

  /** Where the header ends: the first blank line. */
  function IndexOf(buffer: Bytes, from: nat): (r: Option<nat>)
    requires from <= |buffer|
    ensures r.Some? ==>
      from <= r.value && TerminatorAt(buffer, r.value) && forall k | from <= k < r.value :: !TerminatorAt(buffer, k)
    ensures r.None? ==> forall k | from <= k :: !TerminatorAt(buffer, k)
    decreases |buffer| - from
  {
    if TerminatorAt(buffer, from) then Some(from)
    else if from == |buffer| then None
    else IndexOf(buffer, from + 1)
  }

  /** Bytes read as ASCII lose their high bit; letters are compared without case. */
  function Fold(b: Byte): Byte {
    var a := b % 128;
    if 65 <= a <= 90 then a + 32 else a
  }

  function FoldAll(s: Bytes): (r: Bytes)
    ensures |r| == |s| && forall i | 0 <= i < |s| :: r[i] == Fold(s[i])
  {
    seq(|s|, i requires 0 <= i < |s| => Fold(s[i]))
  }

  /** "content-length:" */
  const NAME: Bytes := [99, 111, 110, 116, 101, 110, 116, 45, 108, 101, 110, 103, 116, 104, 58]

  /** "Content-Length: " */
  const SENT_NAME: Bytes := [67, 111, 110, 116, 101, 110, 116, 45, 76, 101, 110, 103, 116, 104, 58, 32]

  /** The lines between carriage return and line feed pairs. */
  function Lines(s: Bytes): (r: seq<Bytes>)
    ensures |r| > 0
  {
    if s == [] then [[]]
    else if |s| >= 2 && s[0] == 13 && s[1] == 10 then [[]] + Lines(s[2..])
    else var rest := Lines(s[1..]); [[s[0]] + rest[0]] + rest[1..]
  }

  function LengthLines(lines: seq<Bytes>): seq<Bytes> {
    if lines == [] then []
    else (if NAME <= lines[0] then [lines[0]] else []) + LengthLines(lines[1..])
  }

  predicate IsDigit(b: Byte) {
    48 <= b <= 57
  }

  function SkipSpaces(s: Bytes): Bytes {
    if s != [] && s[0] == 32 then SkipSpaces(s[1..]) else s
  }

  /** The number at the start, and what follows it. */
  function Number(s: Bytes, value: nat): (nat, Bytes) {
    if s != [] && IsDigit(s[0]) then Number(s[1..], 10 * value + (s[0] - 48)) else (value, s)
  }

  /** The number of a length line that has nothing but spaces around it. */
  function LineLength(line: Bytes): Option<nat>
    requires NAME <= line
  {
    var s := SkipSpaces(line[|NAME|..]);
    if s == [] || !IsDigit(s[0]) || SkipSpaces(Number(s, 0).1) != [] then None else Some(Number(s, 0).0)
  }

  /** The one length that a header gives. */
  function HeaderLength(header: Bytes): Option<nat> {
    var lengths := LengthLines(Lines(FoldAll(header)));
    if |lengths| != 1 || !(NAME <= lengths[0]) then None else LineLength(lengths[0])
  }

  // ------------------------------------------------------------------ connection

  datatype Error = TransportLimit | ProtocolError

  datatype Conn = Conn(buffer: Bytes, expected: Option<nat>, traffic: nat, messages: nat, delivered: seq<Bytes>,
    failure: Option<Error>)

  function Failed(c: Conn, error: Error): Conn {
    c.(failure := Some(error), buffer := [])
  }

  const START := Conn([], None, 0, 0, [], None)

  /** A connection that works waits for at least one byte. */
  predicate Works(c: Conn) {
    c.failure.None? && (c.expected.Some? ==> c.expected.value >= 1)
  }

  predicate Sound(c: Conn) {
    c.failure.None? ==> Works(c)
  }

  /** Reads the header at the front of the buffer, if it is all there. */
  function ReadHeader(c: Conn): (r: Conn)
    requires Works(c) && c.expected.None?
    ensures Sound(r) && (r == c || r.failure.Some? || (|r.buffer| < |c.buffer| && r.expected.Some?))
  {
    var end := IndexOf(c.buffer, 0);
    if end.None? then (if |c.buffer| > MAX_HEADER then Failed(c, ProtocolError) else c)
    else if end.value > MAX_HEADER then Failed(c, ProtocolError)
    else
      var length := HeaderLength(c.buffer[..end.value]);
      if length.None? then Failed(c, ProtocolError)
      else if length.value < 1 || length.value > MAX_MESSAGE then Failed(c.(expected := length), TransportLimit)
      else c.(expected := length, buffer := c.buffer[end.value + 4..])
  }

  /** Takes the body at the front of the buffer, if it is all there; `accepts` tells
      whether it is a valid message. */
  function TakeBody(c: Conn, accepts: Bytes -> bool): (r: Conn)
    requires Works(c) && c.expected.Some?
    ensures Sound(r) && (r == c || r.failure.Some? || (|r.buffer| < |c.buffer| && r.expected.None?))
  {
    var n := c.expected.value;
    if |c.buffer| < n then c
    else
      var taken := c.(buffer := c.buffer[n..], expected := None, messages := c.messages + 1);
      if taken.messages > MAX_MESSAGES then Failed(taken, TransportLimit)
      else if !accepts(c.buffer[..n]) then Failed(taken, ProtocolError)
      else taken.(delivered := c.delivered + [c.buffer[..n]])
  }

  function Advance(c: Conn, accepts: Bytes -> bool): (r: Conn)
    requires Works(c)
    ensures Sound(r) && (r == c || r.failure.Some? || |r.buffer| < |c.buffer|)
  {
    if c.expected.None? then ReadHeader(c) else TakeBody(c, accepts)
  }

  /** Takes as many whole messages as the buffer holds. */
  function Drain(c: Conn, accepts: Bytes -> bool): (r: Conn)
    requires Works(c)
    ensures Sound(r)
    decreases |c.buffer|
  {
    var next := Advance(c, accepts);
    if next == c || next.failure.Some? then next else Drain(next, accepts)
  }

  function Receive(c: Conn, chunk: Bytes, accepts: Bytes -> bool): (r: Conn)
    requires Sound(c)
    ensures Sound(r)
  {
    if c.failure.Some? then c
    else
      var counted := c.(traffic := c.traffic + |chunk|);
      if counted.traffic > MAX_TRAFFIC || |c.buffer| + |chunk| > MAX_MESSAGE + MAX_HEADER + MAX_CHUNK
      then Failed(counted, TransportLimit)
      else Drain(counted.(buffer := c.buffer + chunk), accepts)
  }

  /** The receiving half of the client. */
  class LspClient {
    var buffer: Bytes
    var expected: Option<nat>
    var traffic: nat
    var messages: nat
    var delivered: seq<Bytes>
    var failure: Option<Error>

    ghost function Value(): Conn
      reads this
    {
      Conn(buffer, expected, traffic, messages, delivered, failure)
    }

    constructor ()
      ensures Value() == START
    {
      buffer, expected, traffic, messages, delivered, failure := [], None, 0, 0, [], None;
    }

    method Fail(error: Error)
      modifies `failure, `buffer
      ensures Value() == old(Value()).(
        failure := if old(failure).Some? then old(failure) else Some(error), buffer := [])
    {
      if failure.None? {
        failure := Some(error);
      }
      buffer := [];
    }

    method ReceiveChunk(chunk: Bytes, accepts: Bytes -> bool)
      requires Sound(Value())
      modifies this
      ensures Value() == Receive(old(Value()), chunk, accepts)
    {
      hide Drain;
      if failure.Some? {
        return;
      }
      traffic := traffic + |chunk|;
      if traffic > MAX_TRAFFIC || |buffer| + |chunk| > MAX_MESSAGE + MAX_HEADER + MAX_CHUNK {
        Fail(TransportLimit);
        return;
      }
      buffer := buffer + chunk;
      Parse(accepts);
    }

    method Parse(accepts: Bytes -> bool)
      requires Works(Value())
      modifies this
      ensures Value() == Drain(old(Value()), accepts)
    {
      hide Drain, ReadHeader, TakeBody;
      while true
        invariant Works(Value()) && Drain(Value(), accepts) == Drain(old(Value()), accepts)
        decreases |buffer|
      {
        DrainStep(Value(), accepts);
        var wait;
        if expected.None? {
          wait := ReadLength();
        } else {
          wait := TakeMessage(accepts);
        }
        if wait {
          return;
        }
      }
    }

    /** The header part of the parsing loop; `wait` when it ends there. */
    method ReadLength() returns (wait: bool)
      requires Works(Value()) && expected.None?
      modifies this
      ensures Value() == ReadHeader(old(Value()))
      ensures wait <==> Value() == old(Value()) || failure.Some?
    {
      hide HeaderLength, IndexOf;
      wait := true;
      var end := IndexOf(buffer, 0);
      if end.None? {
        if |buffer| > MAX_HEADER {
          Fail(ProtocolError);
        }
        return;
      }
      if end.value > MAX_HEADER {
        Fail(ProtocolError);
        return;
      }
      var length := HeaderLength(buffer[..end.value]);
      if length.None? {
        Fail(ProtocolError);
        return;
      }
      expected := length;
      if expected.value < 1 || expected.value > MAX_MESSAGE {
        Fail(TransportLimit);
        return;
      }
      buffer := buffer[end.value + 4..];
      wait := false;
    }

    /** The body part. */
    method TakeMessage(accepts: Bytes -> bool) returns (wait: bool)
      requires Works(Value()) && expected.Some?
      modifies this
      ensures Value() == TakeBody(old(Value()), accepts)
      ensures wait <==> Value() == old(Value()) || failure.Some?
    {
      wait := true;
      if |buffer| < expected.value {
        return;
      }
      var body := buffer[..expected.value];
      buffer := buffer[expected.value..];
      expected := None;
      messages := messages + 1;
      if messages > MAX_MESSAGES {
        Fail(TransportLimit);
        return;
      }
      if !accepts(body) {
        Fail(ProtocolError);
        return;
      }
      delivered := delivered + [body];
      wait := false;
    }
  }

  lemma DrainStep(c: Conn, accepts: Bytes -> bool)
    requires Works(c)
    ensures
      var next := Advance(c, accepts);
      Drain(c, accepts) == if next == c || next.failure.Some? then next else Drain(next, accepts)
  {
  }
}
