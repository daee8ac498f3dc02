/** The RD-03D radar's UART frame parser and first-target decoder
    (firmware/libraries/RD03D/RadarSensor.cpp, RadarSensor.h). */
module RadarSensor {
  import opened Wrappers
  import opened Text
  import Seqs

  // ---------------------------------------------------------------
  // Field decoding
  // ---------------------------------------------------------------

  /** `lo | (hi << 8)`: a little-endian 16-bit field. */
  function LE16(lo: byte, hi: byte): (u: nat)
    ensures u < 0x10000
  {
    lo + 256 * hi
  }

  /** The two bytes of a little-endian field are its low and high bytes. */
  lemma LE16Bytes(lo: byte, hi: byte)
    ensures LE16(lo, hi) % 256 == lo && LE16(lo, hi) / 256 == hi
  {
  }

  /** Storing a 16-bit pattern in an `int16_t`: two's complement. */
  function ToInt16(u: nat): (v: int)
    requires u < 0x10000
    ensures -0x8000 <= v < 0x8000 && (v - u) % 0x10000 == 0
  {
    if u >= 0x8000 then u - 0x10000 else u
  }

  /** `(v & 0x8000) ? 1 : -1` times `v & 0x7FFF` for an `int16_t` v: the
      radar's sign-magnitude convention, where a set top bit means positive. */
  function SignMagnitude(v: int): (w: int)
    requires -0x8000 <= v < 0x8000
    ensures -0x7FFF <= w <= 0x7FFF
  {
    if v < 0 then v % 0x8000 else -(v % 0x8000)
  }

  /** The decoded value of a raw 16-bit pattern `u`: its top bit gives the
      sign (set: positive) and its low fifteen bits the magnitude. */
  lemma SignMagnitudeBits(u: nat)
    requires u < 0x10000
    ensures SignMagnitude(ToInt16(u)) == (if u >= 0x8000 then u - 0x8000 else -(u as int))
  {
  }

  /** The raw pattern the radar sends for a value in range. */
  function EncodeSignMagnitude(w: int): (u: nat)
    requires -0x7FFF <= w <= 0x7FFF
    ensures u < 0x10000
  {
    if w > 0 then 0x8000 + w else -w
  }

  /** Decoding undoes encoding for every value in [-32767, 32767]. */
  lemma SignMagnitudeRoundTrip(w: int)
    requires -0x7FFF <= w <= 0x7FFF
    ensures SignMagnitude(ToInt16(EncodeSignMagnitude(w))) == w
  {
    SignMagnitudeBits(EncodeSignMagnitude(w));
  }

  /** Two raw patterns decode alike only when equal, or when they are the
      two zeros 0x0000 and 0x8000. */
  lemma SignMagnitudeInjective(u: nat, u': nat)
    requires u < 0x10000 && u' < 0x10000
    requires SignMagnitude(ToInt16(u)) == SignMagnitude(ToInt16(u'))
    ensures u == u' || (u in {0, 0x8000} && u' in {0, 0x8000})
  {
    SignMagnitudeBits(u);
    SignMagnitudeBits(u');
  }

  /** Distance and angle of the target: both 0.0 when nothing is detected,
      otherwise the floating-point `sqrt` and `atan2` of x and y. */
  datatype Polar = Zero | FromXY(x: int, y: int)

  /** `RadarTarget` of RadarSensor.h (distance, angle, speed, x, y, detected). */
  datatype RadarTarget = RadarTarget(polar: Polar, speed: int, x: int, y: int, detected: bool)

  /** The first target of a frame's 24 data bytes (`parseData` past its
      length check). */
  function DecodeTarget(buf: seq<byte>): (t: RadarTarget)
    requires |buf| >= 8
  {
    var rawX := ToInt16(LE16(buf[0], buf[1]));
    var rawY := ToInt16(LE16(buf[2], buf[3]));
    var rawSpeed := ToInt16(LE16(buf[4], buf[5]));
    var rawDist := LE16(buf[6], buf[7]);
    var detected := !(rawX == 0 && rawY == 0 && rawSpeed == 0 && rawDist == 0);
    var x := SignMagnitude(rawX);
    var y := SignMagnitude(rawY);
    RadarTarget(if detected then FromXY(x, y) else Zero, SignMagnitude(rawSpeed), x, y, detected)
  }

  /** `detected` is false exactly when the first eight bytes are zero; the
      fields lie in [-32767, 32767]; distance and angle are zero exactly
      when nothing is detected. */
  lemma DecodeTargetFacts(buf: seq<byte>)
    requires |buf| >= 8
    ensures var t := DecodeTarget(buf);
      && (t.detected <==> !(buf[0] == 0 && buf[1] == 0 && buf[2] == 0 && buf[3] == 0
                            && buf[4] == 0 && buf[5] == 0 && buf[6] == 0 && buf[7] == 0))
      && -0x7FFF <= t.x <= 0x7FFF && -0x7FFF <= t.y <= 0x7FFF && -0x7FFF <= t.speed <= 0x7FFF
      && t.polar == if t.detected then FromXY(t.x, t.y) else Zero
  {
    ZeroField(buf[0], buf[1]);
    ZeroField(buf[2], buf[3]);
    ZeroField(buf[4], buf[5]);
    assert LE16(buf[6], buf[7]) == 0 <==> buf[6] == 0 && buf[7] == 0;
  }

  /** A field is zero exactly when both its bytes are. */
  lemma ZeroField(lo: byte, hi: byte)
    ensures ToInt16(LE16(lo, hi)) == 0 <==> lo == 0 && hi == 0
  {
  }

  /** A target with nothing detected decodes its fields as zero. */
  lemma UndetectedIsZero(buf: seq<byte>)
    requires |buf| >= 8 && !DecodeTarget(buf).detected
    ensures DecodeTarget(buf) == RadarTarget(Zero, 0, 0, 0, false)
  {
  }

  /** The fields of a frame are read back from their little-endian,
      sign-magnitude encoding. */
  lemma DecodeEncoded(x: int, y: int, speed: int, dist: nat, rest: seq<byte>)
    requires -0x7FFF <= x <= 0x7FFF && -0x7FFF <= y <= 0x7FFF && -0x7FFF <= speed <= 0x7FFF
    requires dist < 0x10000
    ensures var buf := Bytes16(EncodeSignMagnitude(x)) + Bytes16(EncodeSignMagnitude(y))
                     + Bytes16(EncodeSignMagnitude(speed)) + Bytes16(dist) + rest;
      && DecodeTarget(buf).x == x && DecodeTarget(buf).y == y && DecodeTarget(buf).speed == speed
  {
    var ex, ey, es, ed := Bytes16(EncodeSignMagnitude(x)), Bytes16(EncodeSignMagnitude(y)),
                          Bytes16(EncodeSignMagnitude(speed)), Bytes16(dist);
    var buf := ex + ey + es + ed + rest;
    assert buf[0] == ex[0] && buf[1] == ex[1] && buf[2] == ey[0] && buf[3] == ey[1];
    assert buf[4] == es[0] && buf[5] == es[1];
    SignMagnitudeRoundTrip(x);
    SignMagnitudeRoundTrip(y);
    SignMagnitudeRoundTrip(speed);
  }

  /** The two bytes, low first, of a 16-bit value. */
  function Bytes16(u: nat): (b: seq<byte>)
    requires u < 0x10000
    ensures |b| == 2 && LE16(b[0], b[1]) == u
  {
    [u % 256, u / 256]
  }

  /** `Bytes16` inverts `LE16`. */
  lemma LE16RoundTrip(lo: byte, hi: byte)
    ensures Bytes16(LE16(lo, hi)) == [lo, hi]
  {
    LE16Bytes(lo, hi);
  }

  // ---------------------------------------------------------------
  // The frame state machine
  // ---------------------------------------------------------------

  datatype PState = WaitAA | WaitFF | Wait03 | Wait00 | ReceiveFrame

  /** The parser's persistent state: where it is in the header, and the
      bytes collected so far of the current frame body. */
  datatype Parser = Parser(state: PState, collected: seq<byte>)

  /** Outside a frame nothing is collected, and inside one fewer than 26
      bytes are (the 30-byte buffer is never overrun). */
  predicate ParserOk(p: Parser) {
    |p.collected| < 26 && (p.state != ReceiveFrame ==> p.collected == [])
  }

  const Start: Parser := Parser(WaitAA, [])

  /** One byte of the `switch`: the new parser state, and the 24 data bytes
      when this byte completes a frame whose tail is 55 CC. */
  function StepByte(p: Parser, b: byte): (r: (Parser, Option<seq<byte>>))
    requires ParserOk(p)
    ensures ParserOk(r.0)
    ensures r.1.Some? ==> |r.1.value| == 24
  {
    match p.state
    case WaitAA => (Parser(if b == 0xAA then WaitFF else WaitAA, []), None)
    case WaitFF => (Parser(if b == 0xFF then Wait03 else WaitAA, []), None)
    case Wait03 => (Parser(if b == 0x03 then Wait00 else WaitAA, []), None)
    case Wait00 => (Parser(if b == 0x00 then ReceiveFrame else WaitAA, []), None)
    case ReceiveFrame =>
      var c := p.collected + [b];
      if |c| >= 26 then
        (Start, if c[24] == 0x55 && c[25] == 0xCC then Some(c[..24]) else None)
      else (Parser(ReceiveFrame, c), None)
  }

  /** The bytes of an optional frame as a list. */
  function Frames(f: Option<seq<byte>>): seq<seq<byte>> {
    if f.Some? then [f.value] else []
  }

  /** The parser after consuming `bs`, and the frames completed on the way. */
  function Feed(p: Parser, bs: seq<byte>): (r: (Parser, seq<seq<byte>>))
    requires ParserOk(p)
    ensures ParserOk(r.0)
    ensures forall i | 0 <= i < |r.1| :: |r.1[i]| == 24
    decreases |bs|
  {
    if bs == [] then (p, [])
    else
      var prev := Feed(p, bs[..|bs| - 1]);
      var step := StepByte(prev.0, bs[|bs| - 1]);
      (step.0, prev.1 + Frames(step.1))
  }

  /** The parser's state is carried across `update` calls: feeding two
      chunks is feeding their concatenation. */
  lemma {:induction false} FeedConcat(p: Parser, a: seq<byte>, b: seq<byte>)
    requires ParserOk(p)
    ensures Feed(p, a + b).0 == Feed(Feed(p, a).0, b).0
    ensures Feed(p, a + b).1 == Feed(p, a).1 + Feed(Feed(p, a).0, b).1
    decreases |b|
  {
    if b == [] {
      assert a + b == a;
    } else {
      var b' := b[..|b| - 1];
      assert (a + b)[..|a + b| - 1] == a + b';
      assert (a + b)[|a + b| - 1] == b[|b| - 1];
      FeedConcat(p, a, b');
    }
  }

  /** Feeding one more byte is one more step. */
  lemma FeedSnoc(p: Parser, bs: seq<byte>, b: byte)
    requires ParserOk(p)
    ensures Feed(p, bs + [b]).0 == StepByte(Feed(p, bs).0, b).0
    ensures Feed(p, bs + [b]).1 == Feed(p, bs).1 + Frames(StepByte(Feed(p, bs).0, b).1)
  {
    assert (bs + [b])[..|bs|] == bs;
  }

  /** Only the four header bytes AA FF 03 00 in a row start a frame. */
  lemma HeaderStartsFrame()
    ensures Feed(Start, [0xAA, 0xFF, 0x03, 0x00]) == (Parser(ReceiveFrame, []), [])
  {
    var e: seq<byte> := [];
    var s1, s2, s3, s4: seq<byte> := [0xAA], [0xAA, 0xFF], [0xAA, 0xFF, 0x03], [0xAA, 0xFF, 0x03, 0x00];
    assert s1 == e + [0xAA] && s2 == s1 + [0xFF] && s3 == s2 + [0x03] && s4 == s3 + [0x00];
    FeedSnoc(Start, e, 0xAA);
    assert Feed(Start, s1) == (Parser(WaitFF, []), []);
    FeedSnoc(Start, s1, 0xFF);
    assert Feed(Start, s2) == (Parser(Wait03, []), []);
    FeedSnoc(Start, s2, 0x03);
    assert Feed(Start, s3) == (Parser(Wait00, []), []);
    FeedSnoc(Start, s3, 0x00);
  }

  /** A mismatching byte is not looked at again: AA AA FF 03 00 leaves the
      parser waiting for AA rather than in a frame. */
  lemma NoResync()
    ensures Feed(Start, [0xAA, 0xAA, 0xFF, 0x03, 0x00]) == (Start, [])
  {
    var e: seq<byte> := [];
    var s1, s2, s3, s4, s5: seq<byte> :=
      [0xAA], [0xAA, 0xAA], [0xAA, 0xAA, 0xFF], [0xAA, 0xAA, 0xFF, 0x03], [0xAA, 0xAA, 0xFF, 0x03, 0x00];
    assert s1 == e + [0xAA] && s2 == s1 + [0xAA] && s3 == s2 + [0xFF];
    assert s4 == s3 + [0x03] && s5 == s4 + [0x00];
    FeedSnoc(Start, e, 0xAA);
    assert Feed(Start, s1) == (Parser(WaitFF, []), []);
    FeedSnoc(Start, s1, 0xAA);
    assert Feed(Start, s2) == (Start, []);
    FeedSnoc(Start, s2, 0xFF);
    assert Feed(Start, s3) == (Start, []);
    FeedSnoc(Start, s3, 0x03);
    assert Feed(Start, s4) == (Start, []);
    FeedSnoc(Start, s4, 0x00);
  }

  /** Inside a frame, bytes short of the 26th are only collected. */
  lemma {:induction false} Collect(c: seq<byte>, bs: seq<byte>)
    requires |c| + |bs| < 26
    ensures Feed(Parser(ReceiveFrame, c), bs).0 == Parser(ReceiveFrame, c + bs)
    ensures Feed(Parser(ReceiveFrame, c), bs).1 == []
    decreases |bs|
  {
    if bs == [] {
      assert c + bs == c;
    } else {
      var init, b := bs[..|bs| - 1], bs[|bs| - 1];
      Collect(c, init);
      assert bs == init + [b];
      CollectNext(c, init, b);
    }
  }

  /** One more byte short of the 26th is collected too. */
  lemma CollectNext(c: seq<byte>, init: seq<byte>, b: byte)
    requires |c| + |init| + 1 < 26
    requires Feed(Parser(ReceiveFrame, c), init).0 == Parser(ReceiveFrame, c + init)
    requires Feed(Parser(ReceiveFrame, c), init).1 == []
    ensures Feed(Parser(ReceiveFrame, c), init + [b]).0 == Parser(ReceiveFrame, c + (init + [b]))
    ensures Feed(Parser(ReceiveFrame, c), init + [b]).1 == []
  {
    FeedSnoc(Parser(ReceiveFrame, c), init, b);
    CollectStep(c + init, b);
    Seqs.AppendAssoc(c, init, [b]);
  }

  /** A byte short of the 26th is appended to the frame being collected. */
  lemma CollectStep(c: seq<byte>, b: byte)
    requires |c| + 1 < 26
    ensures StepByte(Parser(ReceiveFrame, c), b) == (Parser(ReceiveFrame, c + [b]), None)
    ensures Frames(None) == []
  {
  }

  /** Appending an optional frame: the list is non-empty iff it was or the
      frame is present, and its last element is that frame if present. */
  lemma AppendFrames(frames: seq<seq<byte>>, f: Option<seq<byte>>)
    ensures var fs := frames + Frames(f);
      && (fs != [] <==> frames != [] || f.Some?)
      && (f.Some? ==> fs[|fs| - 1] == f.value)
      && (f.None? ==> fs == frames)
  {
  }

  /** A whole frame from the waiting state: exactly its 24 data bytes are
      delivered when the tail is 55 CC, none otherwise, and the parser
      waits for the next header in both cases. */
  lemma WholeFrame(data: seq<byte>, t0: byte, t1: byte)
    requires |data| == 24
    ensures var f := Feed(Start, [0xAA, 0xFF, 0x03, 0x00] + data + [t0, t1]);
      && f.0 == Start
      && f.1 == if t0 == 0x55 && t1 == 0xCC then [data] else []
  {
    var h: seq<byte> := [0xAA, 0xFF, 0x03, 0x00];
    var body := data + [t0];
    assert h + body + [t1] == h + data + [t0, t1];
    HeaderStartsFrame();
    Collect([], body);
    assert [] + body == body;
    FeedConcat(Start, h, body);
    FeedSnoc(Start, h + body, t1);
    TailStep(data, t0, t1);
  }

  /** The 26th byte of a frame body. */
  lemma TailStep(data: seq<byte>, t0: byte, t1: byte)
    requires |data| == 24
    ensures StepByte(Parser(ReceiveFrame, data + [t0]), t1)
      == (Start, if t0 == 0x55 && t1 == 0xCC then Some(data) else None)
  {
    var c := data + [t0] + [t1];
    assert c[24] == t0 && c[25] == t1 && c[..24] == data;
  }

  // ---------------------------------------------------------------
  // The sensor object
  // ---------------------------------------------------------------

  /** The function-local statics `buffer`, `index` and `state` of
      `RadarSensor::update()`: one parser shared by every `RadarSensor`,
      initialised once when the program starts. */
  class FrameParser {
    var state: PState
    const buffer: array<byte>
    var index: nat

    ghost predicate Valid()
      reads this
    {
      buffer.Length == 30 && index < 26 && (state != ReceiveFrame ==> index == 0)
    }

    /** The parser state the statics represent. */
    ghost function Model(): (p: Parser)
      reads this, buffer
      requires Valid()
      ensures ParserOk(p)
    {
      Parser(state, buffer[..index])
    }

    /** The static initialisation: waiting for AA with an empty buffer. */
    constructor ()
      ensures Valid() && Model() == Start && fresh(buffer)
    {
      state := WaitAA;
      buffer := new byte[30];
      index := 0;
    }
  }

  /** A `RadarSensor`: its own target, and the parser every sensor shares. */
  class Sensor {
    const parser: FrameParser
    var target: RadarTarget

    ghost predicate Valid()
      reads this, parser
    {
      parser.Valid()
    }

    /** The constructor leaves the shared parser as it is, so a sensor made
        after another has read bytes continues that one's frame.  `target`
        is left uninitialised by the firmware; `initial` stands for
        whatever it holds before the first frame. */
    constructor (parser: FrameParser, initial: RadarTarget)
      requires parser.Valid()
      ensures Valid() && this.parser == parser && target == initial
    {
      this.parser := parser;
      target := initial;
    }

    /** `parseData(buf, len)`. */
    method ParseData(buf: seq<byte>, len: int) returns (ok: bool)
      requires |buf| >= 8
      modifies this`target
      ensures ok == (len == 24)
      ensures target == if ok then DecodeTarget(buf) else old(target)
    {
      if len != 24 {
        return false;
      }
      target := DecodeTarget(buf);
      return true;
    }

    /** One pass of the `while` loop of `update()`: the `switch` on one byte. */
    method Step(b: byte, updated: bool) returns (updated': bool)
      requires Valid()
      modifies this`target, parser, parser.buffer
      ensures Valid()
      ensures parser.Model() == StepByte(old(parser.Model()), b).0
      ensures var f := StepByte(old(parser.Model()), b).1;
        && updated' == (updated || f.Some?)
        && target == if f.Some? then DecodeTarget(f.value) else old(target)
    {
      updated' := updated;
      match parser.state {
        case WaitAA =>
          if b == 0xAA { parser.state := WaitFF; }
        case WaitFF =>
          parser.state := if b == 0xFF then Wait03 else WaitAA;
        case Wait03 =>
          parser.state := if b == 0x03 then Wait00 else WaitAA;
        case Wait00 =>
          if b == 0x00 {
            parser.index := 0;
            parser.state := ReceiveFrame;
          } else {
            parser.state := WaitAA;
          }
        case ReceiveFrame =>
          updated' := Receive(b, updated);
      }
    }

    /** The `RECEIVE_FRAME` case: store the byte, and after the 26th check
        the tail, decode, and wait for the next header. */
    method Receive(b: byte, updated: bool) returns (updated': bool)
      requires Valid() && parser.state == ReceiveFrame
      modifies this`target, parser, parser.buffer
      ensures Valid()
      ensures parser.Model() == StepByte(old(parser.Model()), b).0
      ensures var f := StepByte(old(parser.Model()), b).1;
        && updated' == (updated || f.Some?)
        && target == if f.Some? then DecodeTarget(f.value) else old(target)
    {
      var buffer := parser.buffer;
      ghost var c := buffer[..parser.index] + [b];
      ghost var r := StepByte(parser.Model(), b);
      assert r.1 == if |c| >= 26 && c[24] == 0x55 && c[25] == 0xCC then Some(c[..24]) else None;
      updated' := updated;
      buffer[parser.index] := b;
      parser.index := parser.index + 1;
      assert buffer[..parser.index] == c;
      if parser.index >= 26 {
        assert buffer[24] == c[24] && buffer[25] == c[25];
        if buffer[24] == 0x55 && buffer[25] == 0xCC {
          assert buffer[..24] == c[..24];
          updated' := ParseData(buffer[..24], 24);
          assert target == DecodeTarget(r.1.value);
        } else {
          assert r.1 == None;
        }
        parser.state := WaitAA;
        parser.index := 0;
      } else {
        assert r.1 == None;
      }
    }

    /** `update()`: consumes the bytes available on the serial line. */
    method Update(input: seq<byte>) returns (updated: bool)
      requires Valid()
      modifies this`target, parser, parser.buffer
      ensures Valid()
      ensures parser.Model() == Feed(old(parser.Model()), input).0
      ensures var frames := Feed(old(parser.Model()), input).1;
        && updated == (frames != [])
        && target == if frames == [] then old(target) else DecodeTarget(frames[|frames| - 1])
    {
      ghost var p0 := parser.Model();
      updated := false;
      var i := 0;
      while i < |input|
        invariant 0 <= i <= |input| && Valid()
        invariant parser.Model() == Feed(p0, input[..i]).0
        invariant var frames := Feed(p0, input[..i]).1;
          && updated == (frames != [])
          && target == if frames == [] then old(target) else DecodeTarget(frames[|frames| - 1])
      {
        ghost var frames := Feed(p0, input[..i]).1;
        ghost var r := StepByte(parser.Model(), input[i]);
        FeedSnoc(p0, input[..i], input[i]);
        Seqs.TakeSnoc(input, i);
        assert Feed(p0, input[..i + 1]).1 == frames + Frames(r.1);
        updated := Step(input[i], updated);
        AppendFrames(frames, r.1);
        i := i + 1;
      }
      Seqs.TakeAll(input, i);
    }
  }

  /** Two sensors share one parser: after the first has read a frame
      header, a second sensor made afterwards is already inside that frame,
      and neither has a new target. */
  method SharedParser(initial: RadarTarget) returns (first: Sensor, second: Sensor)
    ensures first.parser == second.parser && second.Valid()
    ensures second.parser.Model() == Parser(ReceiveFrame, [])
    ensures first.target == initial && second.target == initial
  {
    var p := new FrameParser();
    first := new Sensor(p, initial);
    HeaderStartsFrame();
    var updated := first.Update([0xAA, 0xFF, 0x03, 0x00]);
    second := new Sensor(p, initial);
  }
}
