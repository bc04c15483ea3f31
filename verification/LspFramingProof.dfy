/** The parser delivers the same messages however the stream is cut into chunks, and it
    inverts the framing of sent messages. */
module LspFramingProof {
  import opened LspFraming
  import opened Wrappers

  function Push(c: Conn, more: Bytes): Conn {
    c.(buffer := c.buffer + more)
  }

  function Concat(chunks: seq<Bytes>): Bytes {
    if chunks == [] then [] else Concat(chunks[..|chunks| - 1]) + chunks[|chunks| - 1]
  }

  function ReceiveAll(chunks: seq<Bytes>, accepts: Bytes -> bool): (r: Conn)
    ensures Sound(r)
  {
    if chunks == [] then START
    else Receive(ReceiveAll(chunks[..|chunks| - 1], accepts), chunks[|chunks| - 1], accepts)
  }

  // ------------------------------------------------------- more bytes, same decisions

  lemma IndexOfAppend(buffer: Bytes, more: Bytes)
    requires IndexOf(buffer, 0).Some?
    ensures IndexOf(buffer + more, 0) == IndexOf(buffer, 0)
  {
    var i := IndexOf(buffer, 0).value;
    var all := buffer + more;
    assert forall k | 0 <= k < |buffer| :: all[k] == buffer[k];
    assert TerminatorAt(all, i);
    forall k | 0 <= k < i
      ensures !TerminatorAt(all, k)
    {
      assert !TerminatorAt(buffer, k);
    }
    FirstIndex(all, i);
  }

  lemma FirstIndex(buffer: Bytes, i: nat)
    requires TerminatorAt(buffer, i) && forall k | 0 <= k < i :: !TerminatorAt(buffer, k)
    ensures IndexOf(buffer, 0) == Some(i)
  {
    var r := IndexOf(buffer, 0);
    assert r.Some?;
    assert !(r.value < i) && !(i < r.value);
  }

  lemma AdvanceAppend(c: Conn, more: Bytes, accepts: Bytes -> bool)
    requires Works(c) && Advance(c, accepts) != c && Advance(c, accepts).failure.None?
    ensures Advance(Push(c, more), accepts) == Push(Advance(c, accepts), more)
  {
    hide HeaderLength, IndexOf;
    var all := c.buffer + more;
    if c.expected.None? {
      IndexOfAppend(c.buffer, more);
      var end := IndexOf(c.buffer, 0).value;
      assert all[..end] == c.buffer[..end];
      assert all[end + 4..] == c.buffer[end + 4..] + more;
    } else {
      var n := c.expected.value;
      assert all[..n] == c.buffer[..n];
      assert all[n..] == c.buffer[n..] + more;
    }
  }

  /** What was decided on fewer bytes is decided the same way with more. */
  lemma {:induction false} DrainAppend(c: Conn, more: Bytes, accepts: Bytes -> bool)
    requires Works(c) && Drain(c, accepts).failure.None?
    ensures Drain(Push(c, more), accepts) == Drain(Push(Drain(c, accepts), more), accepts)
    decreases |c.buffer|
  {
    hide Advance;
    var next := Advance(c, accepts);
    if next != c {
      AdvanceAppend(c, more, accepts);
      DrainAppend(next, more, accepts);
    }
  }

  lemma {:induction false} DrainTraffic(c: Conn, traffic: nat, accepts: Bytes -> bool)
    requires Works(c)
    ensures Drain(c.(traffic := traffic), accepts) == Drain(c, accepts).(traffic := traffic)
    decreases |c.buffer|
  {
    var next := Advance(c, accepts);
    assert Advance(c.(traffic := traffic), accepts) == next.(traffic := traffic) by {
      hide HeaderLength, IndexOf;
    }
    if next != c && next.failure.None? {
      hide Advance;
      DrainTraffic(next, traffic, accepts);
    }
  }

  /** While nothing failed, the state is what the whole stream so far gives at once. */
  lemma {:induction false} ReceivedAtOnce(chunks: seq<Bytes>, accepts: Bytes -> bool)
    requires ReceiveAll(chunks, accepts).failure.None?
    ensures
      var all := Concat(chunks);
      ReceiveAll(chunks, accepts) == Drain(Push(START, all), accepts).(traffic := |all|)
  {
    hide Advance;
    if chunks == [] {
      assert START.buffer + [] == START.buffer;
      NothingToDrain(accepts);
    } else {
      hide Drain;
      var front, last := chunks[..|chunks| - 1], chunks[|chunks| - 1];
      ReceivedAtOnce(front, accepts);
      var before, whole := ReceiveAll(front, accepts), Push(START, Concat(front));
      var d := Drain(whole, accepts);
      DrainAppend(whole, last, accepts);
      assert Push(whole, last) == Push(START, Concat(chunks)) by {
        assert [] + Concat(front) + last == [] + (Concat(front) + last);
      }
      DrainTraffic(Push(d, last), |Concat(chunks)|, accepts);
    }
  }

  lemma NothingToDrain(accepts: Bytes -> bool)
    ensures Drain(START, accepts) == START
  {
  }

  /** For any stream whatsoever: two ways of cutting it that both go through deliver the
      same messages and leave the same state. */
  lemma CuttingNeverMatters(a: seq<Bytes>, b: seq<Bytes>, accepts: Bytes -> bool)
    requires Concat(a) == Concat(b)
    requires ReceiveAll(a, accepts).failure.None? && ReceiveAll(b, accepts).failure.None?
    ensures ReceiveAll(a, accepts) == ReceiveAll(b, accepts)
  {
    hide ReceiveAll, Drain;
    ReceivedAtOnce(a, accepts);
    ReceivedAtOnce(b, accepts);
  }

  // -------------------------------------------------------------------- whole frames

  datatype Frame = Frame(header: Bytes, body: Bytes)

  /** The header ends where it should and gives the length of the body. */
  predicate FrameOk(f: Frame) {
    && IndexOf(f.header + TERMINATOR, 0) == Some(|f.header|)
    && HeaderLength(f.header) == Some(|f.body|)
    && 1 <= |f.body| <= MAX_MESSAGE
  }

  /** Short enough that no cut inside the header's last line can look oversized. */
  predicate ShortHeader(f: Frame) {
    |f.header| + 3 <= MAX_HEADER
  }

  function Wire(f: Frame): Bytes {
    f.header + TERMINATOR + f.body
  }

  function Stream(frames: seq<Frame>): Bytes {
    if frames == [] then [] else Wire(frames[0]) + Stream(frames[1..])
  }

  function Bodies(frames: seq<Frame>): (r: seq<Bytes>)
    ensures |r| == |frames| && forall i | 0 <= i < |r| :: r[i] == frames[i].body
  {
    if frames == [] then [] else [frames[0].body] + Bodies(frames[1..])
  }

  predicate Sendable(frames: seq<Frame>, accepts: Bytes -> bool) {
    forall i | 0 <= i < |frames| :: FrameOk(frames[i]) && ShortHeader(frames[i]) && accepts(frames[i].body)
  }

  /** Part of a header and its blank line, but not all. */
  lemma NoHeaderYet(header: Bytes, p: Bytes)
    requires IndexOf(header + TERMINATOR, 0) == Some(|header|) && p < header + TERMINATOR
    ensures IndexOf(p, 0).None?
  {
    hide TerminatorAt, IndexOf;
    var all := header + TERMINATOR;
    if IndexOf(p, 0).Some? {
      var k := IndexOf(p, 0).value;
      PrefixTerminator(p, all, k);
    }
  }

  lemma PrefixTerminator(p: Bytes, all: Bytes, k: nat)
    requires p <= all && TerminatorAt(p, k)
    ensures TerminatorAt(all, k) && k + 4 <= |p|
  {
    assert forall i | 0 <= i < |p| :: p[i] == all[i];
  }

  lemma HeaderThere(header: Bytes, p: Bytes)
    requires IndexOf(header + TERMINATOR, 0) == Some(|header|) && header + TERMINATOR <= p
    ensures IndexOf(p, 0) == Some(|header|)
    ensures p[..|header|] == header
  {
    var all := header + TERMINATOR;
    assert p == all + p[|all|..];
    IndexOfAppend(all, p[|all|..]);
    assert all[..|header|] == header;
  }

  lemma PrefixTrans(p: Bytes, a: Bytes, b: Bytes)
    requires p <= a + b
    ensures |p| < |a| ==> p < a
    ensures |p| >= |a| ==> a <= p && p[|a|..] <= b
  {
    assert forall k | 0 <= k < |p| :: p[k] == (a + b)[k];
  }

  /** What the parser makes of the beginning of a stream of frames. */
  ghost predicate Progress(c: Conn, d: Conn, frames: seq<Frame>, p: Bytes) {
    && d.failure.None? && |d.buffer| <= MAX_MESSAGE
    && (p == Stream(frames) ==>
          d.buffer == [] && d.expected.None? && d.messages == c.messages + |frames| &&
            d.delivered == c.delivered + Bodies(frames))
  }

  /** No beginning of a stream of good frames ever fails. */
  lemma {:induction false} PrefixDrains(c: Conn, frames: seq<Frame>, p: Bytes, accepts: Bytes -> bool)
    requires c.failure.None? && c.expected.None? && c.buffer == p && p <= Stream(frames)
    requires Sendable(frames, accepts) && c.messages + |frames| <= MAX_MESSAGES
    ensures Progress(c, Drain(c, accepts), frames, p)
    decreases |frames|
  {
    hide IndexOf, HeaderLength, Bodies;
    if frames == [] {
      NoBytes(c, accepts);
      assert c.delivered + Bodies(frames) == c.delivered;
    } else {
      var f, rest := frames[0], frames[1..];
      var head := f.header + TERMINATOR;
      FrameFits(f, rest);
      assert head + (f.body + Stream(rest)) == Stream(frames);
      PrefixTrans(p, head, f.body + Stream(rest));
      if |p| < |head| {
        NoHeaderYet(f.header, p);
        StreamLonger(frames, p);
      } else {
        HeaderThere(f.header, p);
        var h := c.(expected := Some(|f.body|), buffer := p[|head|..]);
        assert Advance(c, accepts) == h;
        PrefixTrans(h.buffer, f.body, Stream(rest));
        if |h.buffer| >= |f.body| {
          BodyThere(h, f, accepts);
          var b := TakeBody(h, accepts);
          RestSendable(frames, accepts);
          PrefixDrains(b, rest, b.buffer, accepts);
          BodyProgress(c, b, frames, p, Drain(b, accepts));
        } else {
          StreamLonger(frames, p);
        }
      }
    }
  }

  lemma NoBytes(c: Conn, accepts: Bytes -> bool)
    requires Works(c) && c.expected.None? && c.buffer == []
    ensures Drain(c, accepts) == c
  {
  }

  lemma FrameFits(f: Frame, rest: seq<Frame>)
    ensures Wire(f) + Stream(rest) == f.header + TERMINATOR + (f.body + Stream(rest))
  {
  }

  lemma StreamLonger(frames: seq<Frame>, p: Bytes)
    requires frames != []
    ensures |p| < |frames[0].header| + 4 + |frames[0].body| ==> p != Stream(frames)
  {
  }

  lemma BodyThere(h: Conn, f: Frame, accepts: Bytes -> bool)
    requires Works(h) && h.expected == Some(|f.body|) && f.body <= h.buffer
    requires accepts(f.body) && h.messages < MAX_MESSAGES
    ensures TakeBody(h, accepts) ==
      h.(buffer := h.buffer[|f.body|..], expected := None, messages := h.messages + 1,
        delivered := h.delivered + [f.body])
  {
    assert h.buffer[..|f.body|] == f.body;
  }

  lemma RestSendable(frames: seq<Frame>, accepts: Bytes -> bool)
    requires frames != [] && Sendable(frames, accepts)
    ensures Sendable(frames[1..], accepts)
  {
    hide FrameOk;
    assert forall i | 0 <= i < |frames| - 1 :: frames[1..][i] == frames[i + 1];
  }

  lemma BodyProgress(c: Conn, b: Conn, frames: seq<Frame>, p: Bytes, d: Conn)
    requires frames != [] && b.messages == c.messages + 1 && b.delivered == c.delivered + [frames[0].body]
    requires |p| >= |Wire(frames[0])| && b.buffer == p[|Wire(frames[0])|..] && Progress(b, d, frames[1..], b.buffer)
    ensures Progress(c, d, frames, p)
  {
    if p == Stream(frames) {
      assert b.buffer == Stream(frames[1..]);
      assert c.delivered + [frames[0].body] + Bodies(frames[1..]) == c.delivered + Bodies(frames);
    }
  }

  predicate SmallChunks(chunks: seq<Bytes>) {
    forall i | 0 <= i < |chunks| :: |chunks[i]| <= MAX_CHUNK
  }

  /** After some of the chunks of a stream of good frames. */
  lemma {:induction false} ChunksGoThrough(chunks: seq<Bytes>, frames: seq<Frame>, accepts: Bytes -> bool)
    requires Concat(chunks) <= Stream(frames) && SmallChunks(chunks)
    requires Sendable(frames, accepts) && |frames| <= MAX_MESSAGES && |Stream(frames)| <= MAX_TRAFFIC
    ensures ReceiveAll(chunks, accepts).failure.None?
    ensures ReceiveAll(chunks, accepts) == Drain(Push(START, Concat(chunks)), accepts).(traffic := |Concat(chunks)|)
  {
    hide Drain, Sendable, Advance;
    if chunks != [] {
      var front, last := chunks[..|chunks| - 1], chunks[|chunks| - 1];
      var part := Concat(front);
      assert SmallChunks(front) && |last| <= MAX_CHUNK;
      assert part <= Stream(frames);
      ChunksGoThrough(front, frames, accepts);
      PrefixDrains(Push(START, part), frames, part, accepts);
      var d := Drain(Push(START, part), accepts);
      DrainAppend(Push(START, part), last, accepts);
      assert Push(Push(START, part), last) == Push(START, Concat(chunks)) by {
        assert [] + part + last == [] + (part + last);
      }
      DrainTraffic(Push(d, last), |Concat(chunks)|, accepts);
      PrefixDrains(Push(START, Concat(chunks)), frames, Concat(chunks), accepts);
    } else {
      ReceivedAtOnce(chunks, accepts);
    }
  }

  /** However a stream of good frames is cut into chunks of at most 65536 bytes, exactly
      its bodies are delivered, in order, and nothing fails. */
  lemma EveryCutDelivers(chunks: seq<Bytes>, frames: seq<Frame>, accepts: Bytes -> bool)
    requires Concat(chunks) == Stream(frames) && SmallChunks(chunks)
    requires Sendable(frames, accepts) && |frames| <= MAX_MESSAGES && |Stream(frames)| <= MAX_TRAFFIC
    ensures ReceiveAll(chunks, accepts) == Conn([], None, |Stream(frames)|, |frames|, Bodies(frames), None)
  {
    hide Drain, Sendable, Advance;
    ChunksGoThrough(chunks, frames, accepts);
    PrefixDrains(Push(START, Stream(frames)), frames, Stream(frames), accepts);
    assert [] + Bodies(frames) == Bodies(frames);
  }

  // ---------------------------------------------------------------- what send writes

  function Digits(n: nat): (r: Bytes)
    ensures |r| > 0 && forall i | 0 <= i < |r| :: IsDigit(r[i])
  {
    if n < 10 then [48 + n] else Digits(n / 10) + [48 + n % 10]
  }

  /** The frame of a sent message. */
  function Sent(body: Bytes): Frame {
    Frame(SENT_NAME + Digits(|body|), body)
  }

  lemma {:induction false} NumberDigits(n: nat, tail: Bytes)
    requires tail != [] ==> !IsDigit(tail[0])
    ensures Number(Digits(n) + tail, 0) == (n, tail)
  {
    NumberFrom(Digits(n), tail, 0);
    DigitsValue(n);
  }

  /** The value of digits read after a number. */
  function Value(digits: Bytes, start: nat): nat
    requires forall i | 0 <= i < |digits| :: IsDigit(digits[i])
  {
    if digits == [] then start
    else
      assert IsDigit(digits[0]);
      Value(digits[1..], 10 * start + (digits[0] as int - 48))
  }

  lemma {:induction false} NumberFrom(digits: Bytes, tail: Bytes, start: nat)
    requires forall i | 0 <= i < |digits| :: IsDigit(digits[i])
    requires tail != [] ==> !IsDigit(tail[0])
    ensures Number(digits + tail, start) == (Value(digits, start), tail)
    decreases |digits|
  {
    if digits == [] {
      assert digits + tail == tail;
    } else {
      assert (digits + tail)[1..] == digits[1..] + tail;
      NumberFrom(digits[1..], tail, 10 * start + (digits[0] - 48));
    }
  }

  lemma {:induction false} ValueSnoc(digits: Bytes, last: Byte, start: nat)
    requires (forall i | 0 <= i < |digits| :: IsDigit(digits[i])) && IsDigit(last)
    ensures Value(digits + [last], start) == 10 * Value(digits, start) + (last - 48)
    decreases |digits|
  {
    if digits == [] {
      assert digits + [last] == [last];
      assert [last][1..] == [];
    } else {
      assert (digits + [last])[1..] == digits[1..] + [last];
      ValueSnoc(digits[1..], last, 10 * start + (digits[0] - 48));
    }
  }

  lemma {:induction false} DigitsValue(n: nat)
    ensures Value(Digits(n), 0) == n
  {
    if n < 10 {
      assert [48 + n][1..] == [];
    } else {
      DigitsValue(n / 10);
      ValueSnoc(Digits(n / 10), 48 + n % 10, 0);
    }
  }

  /** A header without carriage returns is one line. */
  lemma {:induction false} OneLine(s: Bytes)
    requires 13 !in s
    ensures Lines(s) == [s]
  {
    if s != [] {
      assert 13 !in s[1..];
      OneLine(s[1..]);
      assert [s[0]] + s[1..] == s;
    }
  }

  /** Spaces after the number, which a server may send. */
  function Padded(length: nat, spaces: nat): Bytes {
    SENT_NAME + Digits(length) + seq(spaces, _ => 32)
  }

  lemma {:induction false} SkipPadding(spaces: nat)
    ensures SkipSpaces(seq(spaces, _ => 32)) == []
  {
    var s: Bytes := seq(spaces, _ => 32);
    if spaces > 0 {
      SkipPadding(spaces - 1);
      assert s[1..] == seq(spaces - 1, _ => 32);
    }
  }

  lemma FoldedName()
    ensures FoldAll(SENT_NAME) == NAME + [32]
  {
    assert Fold(67) == 99 && Fold(76) == 108;
    assert forall i | 0 <= i < 16 :: Fold(SENT_NAME[i]) == (NAME + [32])[i];
  }

  lemma PaddedFolded(length: nat, spaces: nat)
    ensures
      var pad: Bytes := seq(spaces, _ => 32);
      FoldAll(Padded(length, spaces)) == NAME + ([32] + (Digits(length) + pad))
  {
    hide FoldAll;
    var pad: Bytes := seq(spaces, _ => 32);
    var s := Padded(length, spaces);
    var folded, goal := FoldAll(s), NAME + ([32] + (Digits(length) + pad));
    FoldedName();
    assert |folded| == |goal|;
    forall i | 0 <= i < |s|
      ensures folded[i] == goal[i]
    {
      assert folded[i] == Fold(s[i]);
      if i < 16 {
        assert s[i] == SENT_NAME[i];
        assert FoldAll(SENT_NAME)[i] == Fold(SENT_NAME[i]);
        assert goal[i] == (NAME + [32])[i];
      } else if i < 16 + |Digits(length)| {
        assert s[i] == Digits(length)[i - 16] == goal[i];
      } else {
        assert s[i] == pad[i - 16 - |Digits(length)|] == 32 == goal[i];
      }
    }
  }

  lemma PaddedLength(length: nat, spaces: nat)
    ensures HeaderLength(Padded(length, spaces)) == Some(length)
  {
    hide Number;
    var pad: Bytes := seq(spaces, _ => 32);
    var rest := Digits(length) + pad;
    var line := NAME + ([32] + rest);
    PaddedFolded(length, spaces);
    NoReturns(length, spaces);
    OneLine(line);
    assert line[|NAME|..] == [32] + rest;
    assert ([32] + rest)[1..] == rest;
    assert rest[0] == Digits(length)[0];
    assert SkipSpaces(rest) == rest;
    NumberDigits(length, pad);
    SkipPadding(spaces);
    OneLengthLine(line);
  }

  lemma OneLengthLine(line: Bytes)
    requires NAME <= line
    ensures LengthLines([line]) == [line]
  {
    assert [line][1..] == [];
    assert LengthLines([]) == [];
  }

  lemma NoReturns(length: nat, spaces: nat)
    ensures
      var pad: Bytes := seq(spaces, _ => 32);
      13 !in NAME + ([32] + (Digits(length) + pad)) && 13 !in Padded(length, spaces)
  {
    var pad: Bytes := seq(spaces, _ => 32);
    assert 13 !in NAME && 13 !in SENT_NAME;
    assert 13 !in Digits(length) && 13 !in pad;
  }

  lemma NoReturnNoEnd(header: Bytes)
    requires 13 !in header
    ensures IndexOf(header + TERMINATOR, 0) == Some(|header|)
  {
    var all := header + TERMINATOR;
    assert TerminatorAt(all, |header|);
    forall k | 0 <= k < |header|
      ensures !TerminatorAt(all, k)
    {
      assert all[k] == header[k];
      assert header[k] in header;
    }
    FirstIndex(all, |header|);
  }

  lemma PaddedOk(body: Bytes, spaces: nat)
    requires 1 <= |body| <= MAX_MESSAGE
    ensures FrameOk(Frame(Padded(|body|, spaces), body))
  {
    hide HeaderLength, IndexOf;
    PaddedLength(|body|, spaces);
    NoReturns(|body|, spaces);
    NoReturnNoEnd(Padded(|body|, spaces));
  }

  function Ten(k: nat): nat {
    if k == 0 then 1 else 10 * Ten(k - 1)
  }

  lemma {:induction false} DigitsShort(n: nat, k: nat)
    requires k > 0 && n < Ten(k)
    ensures |Digits(n)| <= k
  {
    if n >= 10 {
      assert k > 1;
      DigitsShort(n / 10, k - 1);
    }
  }

  /** Every sent message is a good frame. */
  lemma SentIsGood(body: Bytes)
    requires 1 <= |body| <= MAX_MESSAGE
    ensures FrameOk(Sent(body)) && ShortHeader(Sent(body))
  {
    PaddedOk(body, 0);
    assert Padded(|body|, 0) == Sent(body).header;
    assert Ten(7) == 10000000 by { assert Ten(3) == 1000 && Ten(5) == 100 * Ten(3) && Ten(7) == 100 * Ten(5); }
    DigitsShort(|body|, 7);
  }

  /** Whatever is sent in turn is received exactly, through any chunks. */
  lemma SendThenReceive(bodies: seq<Bytes>, frames: seq<Frame>, chunks: seq<Bytes>, accepts: Bytes -> bool)
    requires |frames| == |bodies| <= MAX_MESSAGES
    requires forall i | 0 <= i < |bodies| ::
      frames[i] == Sent(bodies[i]) && 1 <= |bodies[i]| <= MAX_MESSAGE && accepts(bodies[i])
    requires Concat(chunks) == Stream(frames) && SmallChunks(chunks) && |Stream(frames)| <= MAX_TRAFFIC
    ensures ReceiveAll(chunks, accepts).delivered == bodies && ReceiveAll(chunks, accepts).failure.None?
  {
    hide ReceiveAll, Stream, Sent, FrameOk, ShortHeader;
    forall i | 0 <= i < |frames|
      ensures FrameOk(frames[i]) && ShortHeader(frames[i]) && accepts(frames[i].body) && frames[i].body == bodies[i]
    {
      SentIsGood(bodies[i]);
      SentBody(bodies[i]);
    }
    EveryCutDelivers(chunks, frames, accepts);
    assert Bodies(frames) == bodies;
  }

  lemma SentBody(body: Bytes)
    ensures Sent(body).body == body
  {
  }

  // -------------------------------------------------- how long a header may be, exactly

  function Singles(s: Bytes): (r: seq<Bytes>)
    ensures forall i | 0 <= i < |r| :: |r[i]| == 1
  {
    if s == [] then [] else Singles(s[..|s| - 1]) + [[s[|s| - 1]]]
  }

  /** A first chunk, then single bytes. */
  lemma {:induction false} ConcatSingles(first: Bytes, s: Bytes)
    ensures Concat([first] + Singles(s)) == first + s
  {
    if s == [] {
      assert [first] + Singles(s) == [first];
      assert [first][..0] == [];
      assert Concat([first]) == [] + first;
    } else {
      var n := |s| - 1;
      var all := [first] + Singles(s);
      assert all[..|all| - 1] == [first] + Singles(s[..n]);
      ConcatSingles(first, s[..n]);
      assert s[..n] + [s[n]] == s;
      assert first + s[..n] + [s[n]] == first + s;
    }
  }

  lemma ReceiveSnoc(chunks: seq<Bytes>, last: Bytes, accepts: Bytes -> bool)
    ensures ReceiveAll(chunks + [last], accepts) == Receive(ReceiveAll(chunks, accepts), last, accepts)
  {
    hide Receive;
    assert (chunks + [last])[..|chunks|] == chunks;
  }

  lemma ReceiveOne(chunk: Bytes, accepts: Bytes -> bool)
    ensures ReceiveAll([chunk], accepts) == Receive(START, chunk, accepts)
  {
    hide Receive;
    ReceiveSnoc([], chunk, accepts);
    assert [] + [chunk] == [chunk];
  }

  lemma {:induction false} FailureStays(first: Bytes, s: Bytes, accepts: Bytes -> bool)
    requires Receive(START, first, accepts).failure.Some?
    ensures ReceiveAll([first] + Singles(s), accepts).failure.Some?
  {
    hide ReceiveAll, Drain;
    if s == [] {
      assert [first] + Singles(s) == [first];
      ReceiveOne(first, accepts);
    } else {
      var n := |s| - 1;
      assert [first] + Singles(s) == [first] + Singles(s[..n]) + [[s[n]]];
      FailureStays(first, s[..n], accepts);
      ReceiveSnoc([first] + Singles(s[..n]), [s[n]], accepts);
    }
  }

  lemma CutInside(head: Bytes, tail: Bytes, cut: nat)
    requires cut < |head|
    ensures (head + tail)[..cut] < head
  {
    assert (head + tail)[..cut] == head[..cut];
  }

  lemma OversizedFails(first: Bytes, accepts: Bytes -> bool)
    requires IndexOf(first, 0).None? && |first| == MAX_HEADER + 1
    ensures Receive(START, first, accepts).failure.Some?
  {
    hide HeaderLength, IndexOf;
    assert START.buffer + first == first;
  }

  /** A cut just before the end of a header that is nearly as long as allowed makes it look
      oversized, although the uncut header is accepted. */
  lemma LongHeaderCut(f: Frame, accepts: Bytes -> bool) returns (chunks: seq<Bytes>)
    requires FrameOk(f) && !ShortHeader(f)
    ensures Concat(chunks) == Wire(f) && SmallChunks(chunks) && ReceiveAll(chunks, accepts).failure.Some?
  {
    hide HeaderLength, IndexOf, Receive, ReceiveAll, Concat;
    var cut := MAX_HEADER + 1;
    var first, rest := Wire(f)[..cut], Wire(f)[cut..];
    chunks := [first] + Singles(rest);
    CutInside(f.header + TERMINATOR, f.body, cut);
    NoHeaderYet(f.header, first);
    OversizedFails(first, accepts);
    ConcatSingles(first, rest);
    FailureStays(first, rest, accepts);
  }

  /** A frame gets through every cut exactly when its header is at least three bytes
      shorter than the limit. */
  lemma HeaderLimitIsExact(f: Frame, accepts: Bytes -> bool)
    requires FrameOk(f) && accepts(f.body) && |Wire(f)| <= MAX_TRAFFIC
    ensures ShortHeader(f) <==>
      forall chunks | Concat(chunks) == Wire(f) && SmallChunks(chunks) :: ReceiveAll(chunks, accepts).failure.None?
  {
    hide HeaderLength, IndexOf, FrameOk, ReceiveAll, SmallChunks, Concat;
    if ShortHeader(f) {
      assert Stream([f]) == Wire(f) by {
        assert [f][1..] == [];
        assert Wire(f) + [] == Wire(f);
      }
      forall chunks | Concat(chunks) == Wire(f) && SmallChunks(chunks)
        ensures ReceiveAll(chunks, accepts).failure.None?
      {
        ChunksGoThrough(chunks, [f], accepts);
      }
    } else {
      var chunks := LongHeaderCut(f, accepts);
    }
  }

  /** Such headers exist: one of 8190 bytes, all but the number padding, is read whole but
      not in two pieces. */
  lemma PaddedHeaderShowsIt(b: Byte, accepts: Bytes -> bool) returns (f: Frame, cut: seq<Bytes>)
    requires accepts([b])
    ensures FrameOk(f) && |f.header| == 8190
    ensures Concat([Wire(f)]) == Concat(cut) && SmallChunks([Wire(f)]) && SmallChunks(cut)
    ensures ReceiveAll([Wire(f)], accepts).delivered == [[b]] && ReceiveAll(cut, accepts).failure.Some?
  {
    hide HeaderLength, IndexOf;
    f := Frame(Padded(1, 8173), [b]);
    PaddedOk([b], 8173);
    assert Digits(1) == [49];
    assert |f.header| == 8190;
    cut := LongHeaderCut(f, accepts);
    var none: seq<Bytes> := [];
    assert [Wire(f)][..0] == none;
    assert Concat([Wire(f)]) == [] + Wire(f) == Wire(f);
    WholeFrame(f, accepts);
  }

  lemma WholeFrame(f: Frame, accepts: Bytes -> bool)
    requires FrameOk(f) && |f.header| <= MAX_HEADER && accepts(f.body) && |Wire(f)| <= MAX_CHUNK
    ensures ReceiveAll([Wire(f)], accepts).delivered == [f.body]
  {
    hide HeaderLength, IndexOf, Drain;
    var w: Bytes := Wire(f);
    ReceiveOne(w, accepts);
    HeaderThere(f.header, w);
    var c := Push(START, w).(traffic := |w|);
    assert c.buffer == w;
    var h := c.(expected := Some(|f.body|), buffer := f.body);
    assert w[|f.header| + 4..] == f.body;
    assert Advance(c, accepts) == h;
    DrainStep(c, accepts);
    BodyThere(h, f, accepts);
    DrainStep(h, accepts);
    var d := TakeBody(h, accepts);
    assert f.body[|f.body|..] == [];
    NoBytes(d, accepts);
    assert START.traffic + |w| == |w|;
    assert Receive(START, w, accepts) == Drain(c, accepts);
  }
}
