/** The host-side radar poller (src/hw/radar_reader.py): it sends READ to
    the radar board, parses the six-integer reply and keeps the latest
    non-zero reading. */
module RadarReader {
  import opened Wrappers
  import opened Text
  import Seqs

  /** One reading: timestamp (ms), x and y (mm), distance (mm), angle
      (degrees), speed (cm/s). */
  datatype RadarReading = RadarReading(ts: int, x: int, y: int, dist: int, angle: int, speed: int)

  /** `bytes.decode("ascii", errors="ignore")`: bytes above 127 are dropped. */
  function AsciiDecode(bs: seq<byte>): (s: string)
    ensures |s| <= |bs| && Ascii(s)
  {
    if bs == [] then []
    else (if bs[0] < 128 then [bs[0] as char] else []) + AsciiDecode(bs[1..])
  }

  /** The ASCII encoding of a string of ASCII characters. */
  function AsciiEncode(s: string): (bs: seq<byte>)
    requires Ascii(s)
    ensures |bs| == |s|
  {
    if s == [] then [] else [s[0] as int] + AsciiEncode(s[1..])
  }

  lemma {:induction false} AsciiRoundTrip(s: string)
    requires Ascii(s)
    ensures AsciiDecode(AsciiEncode(s)) == s
  {
    if s != [] {
      var e := AsciiEncode(s);
      assert e == [s[0] as int] + AsciiEncode(s[1..]);
      assert e[0] < 128 && e[0] as char == s[0];
      assert e[1..] == AsciiEncode(s[1..]);
      AsciiRoundTrip(s[1..]);
      assert AsciiDecode(e) == [s[0]] + s[1..];
    }
  }

  /** What one reply line leads to. */
  datatype LineOutcome =
    | Blank               // empty after stripping: nothing happens
    | WrongCount          // not six tokens: "Unexpected format"
    | NotIntegers         // some token is not an integer: "Parse error"
    | AllZero             // six zeros: ignored
    | Accepted(r: RadarReading)

  /** Parses every token with `int()`, or fails. */
  function ParseAll(tokens: seq<string>): (r: Option<seq<int>>)
    ensures r.Some? ==> |r.value| == |tokens| && forall i | 0 <= i < |tokens| :: ParseInt(tokens[i]) == Some(r.value[i])
    ensures r.None? ==> exists i | 0 <= i < |tokens| :: ParseInt(tokens[i]).None?
  {
    if tokens == [] then Some([])
    else match (ParseInt(tokens[0]), ParseAll(tokens[1..]))
      case (Some(v), Some(vs)) => Some([v] + vs)
      case (None, _) => None
      case (_, None) => None
  }

  /** The body of one `_poll_loop` iteration after `readline()`. */
  function ParseLine(raw: seq<byte>): (o: LineOutcome)
    ensures o.Accepted? ==> o.r != RadarReading(0, 0, 0, 0, 0, 0)
  {
    var line := Strip(AsciiDecode(raw));
    if line == [] then Blank
    else
      var parts := Split(line);
      if |parts| != 6 then WrongCount
      else match ParseAll(parts)
        case None => NotIntegers
        case Some(v) =>
          var r := RadarReading(v[0], v[1], v[2], v[3], v[4], v[5]);
          if r == RadarReading(0, 0, 0, 0, 0, 0) then AllZero else Accepted(r)
  }

  /** The latest reading after one poll; `None` for the reply stands for an
      exception while writing or reading, which the loop logs and skips. */
  function NextLatest(latest: Option<RadarReading>, reply: Option<seq<byte>>): (r: Option<RadarReading>)
    ensures reply.Some? && ParseLine(reply.value).Accepted? ==> r == Some(ParseLine(reply.value).r)
    ensures !(reply.Some? && ParseLine(reply.value).Accepted?) ==> r == latest
  {
    if reply.Some? && ParseLine(reply.value).Accepted? then Some(ParseLine(reply.value).r) else latest
  }

  /** The latest reading after a run of polls. */
  function LatestAfter(latest: Option<RadarReading>, replies: seq<Option<seq<byte>>>): Option<RadarReading>
    decreases |replies|
  {
    if replies == [] then latest
    else NextLatest(LatestAfter(latest, replies[..|replies| - 1]), replies[|replies| - 1])
  }

  /** Once a reading is stored it is never cleared. */
  lemma {:induction false} NeverCleared(latest: Option<RadarReading>, replies: seq<Option<seq<byte>>>)
    requires latest.Some?
    ensures LatestAfter(latest, replies).Some?
    decreases |replies|
  {
    if replies != [] {
      NeverCleared(latest, replies[..|replies| - 1]);
    }
  }

  /** The reply holds a reading that replaces the stored one. */
  predicate Accepts(reply: Option<seq<byte>>) {
    reply.Some? && ParseLine(reply.value).Accepted?
  }

  /** Polls none of which is accepted leave the latest reading alone. */
  lemma {:induction false} NoneAccepted(latest: Option<RadarReading>, replies: seq<Option<seq<byte>>>)
    requires forall i | 0 <= i < |replies| :: !Accepts(replies[i])
    ensures LatestAfter(latest, replies) == latest
    decreases |replies|
  {
    if replies != [] {
      NoneAccepted(latest, replies[..|replies| - 1]);
    }
  }

  /** After a run of polls the latest reading is the last accepted one. */
  lemma {:induction false} LastAcceptedWins(latest: Option<RadarReading>, replies: seq<Option<seq<byte>>>, i: nat)
    requires i < |replies| && Accepts(replies[i])
    requires forall j | i < j < |replies| :: !Accepts(replies[j])
    ensures LatestAfter(latest, replies) == Some(ParseLine(replies[i].value).r)
    decreases |replies|
  {
    var init := replies[..|replies| - 1];
    if i < |replies| - 1 {
      assert init[i] == replies[i];
      forall j | i < j < |init| ensures !Accepts(init[j]) { assert init[j] == replies[j]; }
      LastAcceptedWins(latest, init, i);
    }
  }

  /** The decimal texts of a list of integers. */
  function Texts(ns: seq<int>): (ts: seq<string>)
    ensures |ts| == |ns| && forall i | 0 <= i < |ns| :: ts[i] == IntToString(ns[i])
  {
    if ns == [] then [] else [IntToString(ns[0])] + Texts(ns[1..])
  }

  /** Parsing a list of integer texts gives the integers. */
  lemma {:induction false} ParseTexts(ns: seq<int>)
    ensures ParseAll(Texts(ns)) == Some(ns)
    decreases |ns|
  {
    if ns != [] {
      var t := Texts(ns);
      assert t[0] == IntToString(ns[0]) && t[1..] == Texts(ns[1..]);
      ParseTexts(ns[1..]);
      IntToStringRoundTrip(ns[0]);
      ParseAllFirst(t);
      assert ns == [ns[0]] + ns[1..];
    }
  }

  /** Parsing a non-empty list is parsing its head, then its tail. */
  lemma ParseAllFirst(tokens: seq<string>)
    requires tokens != []
    ensures ParseInt(tokens[0]).Some? && ParseAll(tokens[1..]).Some? ==>
      ParseAll(tokens) == Some([ParseInt(tokens[0]).value] + ParseAll(tokens[1..]).value)
  {
  }

  /** The firmware's reply format, `"ts x y dist angle speed\r\n"`, is read
      back field by field in that order; six zeros are ignored. */
  lemma ParseFormatted(r: RadarReading)
    ensures Ascii(Unwords(Fields(r)) + "\r\n")
    ensures var text := Unwords(Fields(r)) + "\r\n";
      ParseLine(AsciiEncode(text)) == if r == RadarReading(0, 0, 0, 0, 0, 0) then AllZero else Accepted(r)
  {
    var ts := Fields(r);
    var vals := Values(r);
    forall i | 0 <= i < 6 ensures Word(ts[i]) {
      IntToStringWord(vals[i]);
    }
    SplitLine(ts);
    var text := Unwords(ts) + "\r\n";
    AsciiRoundTrip(text);
    assert Strip(AsciiDecode(AsciiEncode(text))) == Unwords(ts);
    ParseTexts(vals);
    assert ParseAll(Split(Unwords(ts))) == Some(vals);
  }

  /** The six values of a reading in the order of the reply line. */
  function Values(r: RadarReading): (v: seq<int>)
    ensures |v| == 6
  {
    [r.ts, r.x, r.y, r.dist, r.angle, r.speed]
  }

  /** The six fields of a reading as the firmware prints them. */
  function Fields(r: RadarReading): (ts: seq<string>)
    ensures |ts| == 6
  {
    Texts(Values(r))
  }

  /** The radar worker thread: not created, running, or ended on its own. */
  datatype Worker = NoThread | Alive | Ended

  /** A `RadarReader`: the serial port it polls (present or not), the
      latest reading, the stop event and the worker thread. */
  class Reader {
    const hasSerial: bool
    var latest: Option<RadarReading>
    var stopRequested: bool
    var worker: Worker

    constructor (hasSerial: bool)
      ensures this.hasSerial == hasSerial && latest.None? && !stopRequested && worker == NoThread
    {
      this.hasSerial := hasSerial;
      latest := None;
      stopRequested := false;
      worker := NoThread;
    }

    /** `start()`: a no-op without a serial port or while the worker is
        alive; otherwise clears the stop event and starts a worker. */
    method Start()
      modifies this`stopRequested, this`worker
      ensures !hasSerial || old(worker) == Alive ==> stopRequested == old(stopRequested) && worker == old(worker)
      ensures hasSerial && old(worker) != Alive ==> !stopRequested && worker == Alive
    {
      if !hasSerial {
        return;
      }
      if worker == Alive {
        return;
      }
      stopRequested := false;
      worker := Alive;
    }

    /** `stop()`: a no-op when no worker was ever started (or after a
        stop); otherwise sets the stop event and forgets the worker. */
    method Stop()
      modifies this`stopRequested, this`worker
      ensures old(worker) == NoThread ==> stopRequested == old(stopRequested) && worker == NoThread
      ensures old(worker) != NoThread ==> stopRequested && worker == NoThread
    {
      if worker == NoThread {
        return;
      }
      stopRequested := true;
      worker := NoThread;
    }

    /** `get_latest()`. */
    function GetLatest(): Option<RadarReading>
      reads this
    {
      latest
    }

    /** `get_distance_mm()`: `None` exactly when no reading is stored,
        otherwise the stored reading's distance. */
    function GetDistanceMm(): (d: Option<int>)
      reads this
      ensures d.None? <==> latest.None?
      ensures d.Some? ==> d.value == latest.value.dist
    {
      var reading := GetLatest();
      if reading.None? then None else Some(reading.value.dist)
    }

    /** One pass of the `while` loop of `_poll_loop`: `reply` is the line
        `readline()` returned, or `None` when writing READ or reading failed. */
    method PollOnce(reply: Option<seq<byte>>)
      modifies this`latest
      ensures latest == NextLatest(old(latest), reply)
    {
      if reply.None? {
        return;
      }
      var line := Strip(AsciiDecode(reply.value));
      if line == [] {
        return;
      }
      var parts := Split(line);
      if |parts| != 6 {
        return;
      }
      var vals := ParseAll(parts);
      if vals.None? {
        return;
      }
      var v := vals.value;
      var ts, x, y, dist, angle, speed := v[0], v[1], v[2], v[3], v[4], v[5];
      if ts == 0 && x == 0 && y == 0 && dist == 0 && angle == 0 && speed == 0 {
        return;
      }
      latest := Some(RadarReading(ts, x, y, dist, angle, speed));
    }

    /** `_poll_loop()`: `replies` are the polls made before the worker sees
        the stop event. */
    method PollLoop(replies: seq<Option<seq<byte>>>)
      modifies this`latest
      ensures latest == LatestAfter(old(latest), replies)
    {
      var i := 0;
      while i < |replies|
        invariant 0 <= i <= |replies|
        invariant latest == LatestAfter(old(latest), replies[..i])
      {
        Seqs.TakeTake(replies, i, i + 1);
        PollOnce(replies[i]);
        i := i + 1;
      }
      Seqs.TakeAll(replies, i);
    }
  }
}
