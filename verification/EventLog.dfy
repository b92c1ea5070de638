/** The event log as a file of bytes: `_append_event` and `_read_events` of
    `src/shiliu/p3_metadata_harvest.py`.  How one event is encoded and decoded is a parameter. */
module EventLog {
  import opened Wrappers

  type Byte = bv8
  const NEWLINE: Byte := 10
  const RETURN: Byte := 13

  /** `_canonical` and `json.loads` for one event type; `decode` is None on text that is not JSON. */
  datatype Codec<!T> = Codec(encode: T -> seq<Byte>, decode: seq<Byte> -> Option<T>)

  /** Canonical JSON escapes control characters, so a line holds neither line break. */
  ghost predicate OneLine(line: seq<Byte>) {
    NEWLINE !in line && RETURN !in line
  }

  ghost predicate Faithful<T(!new)>(c: Codec<T>) {
    forall e :: OneLine(c.encode(e)) && c.decode(c.encode(e)) == Some(e)
  }

  function Line<T>(c: Codec<T>, e: T): seq<Byte> {
    c.encode(e) + [NEWLINE]
  }

  /** The bytes of a whole log. */
  function Encode<T>(c: Codec<T>, events: seq<T>): seq<Byte> {
    if events == [] then [] else Line(c, events[0]) + Encode(c, events[1..])
  }

  /** The length of the prefix that ends with the last newline. */
  function WholeLines(raw: seq<Byte>): (n: nat)
    ensures n <= |raw|
  {
    if raw == [] then 0
    else if raw[|raw| - 1] == NEWLINE then |raw| else WholeLines(raw[..|raw| - 1])
  }

  /** `bytes.splitlines`: a line ends at a newline, a carriage return, or the pair; text after
      the last break is a line of its own. */
  function SplitLines(raw: seq<Byte>): seq<seq<Byte>>
    decreases |raw|
  {
    if raw == [] then []
    else
      var n := Break(raw);
      if n == |raw| then [raw]
      else
        var skip := if raw[n] == RETURN && n + 1 < |raw| && raw[n + 1] == NEWLINE then n + 2 else n + 1;
        [raw[..n]] + SplitLines(raw[skip..])
  }

  /** The position of the first line break. */
  function Break(raw: seq<Byte>): (n: nat)
    ensures n <= |raw|
  {
    if raw == [] then 0
    else if raw[0] == NEWLINE || raw[0] == RETURN then 0 else 1 + Break(raw[1..])
  }

  /** None stands for the error `harvest_event_log_corrupt`. */
  function DecodeAll<T>(c: Codec<T>, lines: seq<seq<Byte>>): Option<seq<T>> {
    if lines == [] then Some([])
    else
      var first := c.decode(lines[0]);
      var rest := DecodeAll(c, lines[1..]);
      if first.None? || rest.None? then None else Some([first.value] + rest.value)
  }

  lemma {:induction false} BreakAt(line: seq<Byte>, rest: seq<Byte>)
    requires OneLine(line)
    ensures Break(line + [NEWLINE] + rest) == |line|
  {
    var raw := line + [NEWLINE] + rest;
    if line != [] {
      assert raw[1..] == line[1..] + [NEWLINE] + rest;
      BreakAt(line[1..], rest);
    }
  }

  lemma {:induction false} FirstLine(line: seq<Byte>, rest: seq<Byte>)
    requires OneLine(line)
    ensures SplitLines(line + [NEWLINE] + rest) == [line] + SplitLines(rest)
  {
    var raw := line + [NEWLINE] + rest;
    BreakAt(line, rest);
    assert raw[..|line|] == line && raw[|line| + 1..] == rest && raw[|line|] == NEWLINE;
  }

  lemma {:induction false} DecodeFirst<T>(c: Codec<T>, line: seq<Byte>, lines: seq<seq<Byte>>, event: T, events: seq<T>)
    requires c.decode(line) == Some(event) && DecodeAll(c, lines) == Some(events)
    ensures DecodeAll(c, [line] + lines) == Some([event] + events)
  {
    assert ([line] + lines)[1..] == lines;
  }

  /** Parsing a log that ends with a whole line gives back its events. */
  lemma {:induction false} DecodeEncode<T(!new)>(c: Codec<T>, events: seq<T>)
    requires Faithful(c)
    ensures DecodeAll(c, SplitLines(Encode(c, events))) == Some(events)
  {
    if events != [] {
      var line, rest := c.encode(events[0]), Encode(c, events[1..]);
      DecodeEncode(c, events[1..]);
      FirstLine(line, rest);
      DecodeFirst(c, line, SplitLines(rest), events[0], events[1..]);
      assert [events[0]] + events[1..] == events;
    }
  }

  lemma {:induction false} EncodeAppend<T>(c: Codec<T>, a: seq<T>, b: seq<T>)
    ensures Encode(c, a + b) == Encode(c, a) + Encode(c, b)
  {
    if a == [] {
      assert a + b == b;
    } else {
      assert (a + b)[1..] == a[1..] + b && (a + b)[0] == a[0];
      EncodeAppend(c, a[1..], b);
    }
  }

  lemma {:induction false} WholeLinesOf(whole: seq<Byte>, tail: seq<Byte>)
    requires whole == [] || whole[|whole| - 1] == NEWLINE
    requires NEWLINE !in tail
    ensures WholeLines(whole + tail) == |whole|
    decreases |tail|
  {
    var raw := whole + tail;
    if tail == [] {
      assert raw == whole;
    } else {
      assert raw[..|raw| - 1] == whole + tail[..|tail| - 1];
      WholeLinesOf(whole, tail[..|tail| - 1]);
    }
  }

  /** How many events of the log have their whole line within the first `cut` bytes. */
  function WholeEvents<T>(c: Codec<T>, events: seq<T>, cut: nat): (n: nat)
    ensures n <= |events|
  {
    if events == [] || cut < |Line(c, events[0])| then 0
    else 1 + WholeEvents(c, events[1..], cut - |Line(c, events[0])|)
  }

  /** Cutting the file anywhere leaves the whole lines that fit and a piece of one line. */
  lemma {:induction false} CutSplits<T(!new)>(c: Codec<T>, events: seq<T>, cut: nat)
    requires Faithful(c) && cut <= |Encode(c, events)|
    ensures var kept := Encode(c, events[..WholeEvents(c, events, cut)]);
      && |kept| <= cut && Encode(c, events)[..|kept|] == kept
      && NEWLINE !in Encode(c, events)[|kept|..cut]
      && (kept == [] || kept[|kept| - 1] == NEWLINE)
      && (WholeEvents(c, events, cut) < |events| ==> cut < |kept| + |Line(c, events[WholeEvents(c, events, cut)])|)
  {
    if events != [] {
      var line, rest := Line(c, events[0]), Encode(c, events[1..]);
      var raw := Encode(c, events);
      assert raw == line + rest;
      if cut < |line| {
        assert raw[..cut] == c.encode(events[0])[..cut];
        assert events[..0] == [];
      } else {
        var n := WholeEvents(c, events[1..], cut - |line|);
        CutSplits(c, events[1..], cut - |line|);
        EncodeFirst(c, events, n);
        CutAfterFirst(line, rest, Encode(c, events[1..][..n]), cut);
        assert events[1..][..n] == events[1..n + 1];
      }
    }
  }

  lemma {:induction false} EncodeFirst<T>(c: Codec<T>, events: seq<T>, n: nat)
    requires n < |events|
    ensures Encode(c, events[..n + 1]) == Line(c, events[0]) + Encode(c, events[1..][..n])
  {
    assert events[..n + 1][1..] == events[1..][..n];
  }

  lemma {:induction false} CutAfterFirst(line: seq<Byte>, rest: seq<Byte>, kept: seq<Byte>, cut: nat)
    requires line != [] && line[|line| - 1] == NEWLINE && |line| + |kept| <= cut <= |line| + |rest|
    requires rest[..|kept|] == kept && NEWLINE !in rest[|kept|..cut - |line|] && (kept == [] || kept[|kept| - 1] == NEWLINE)
    ensures (line + rest)[..|line + kept|] == line + kept && NEWLINE !in (line + rest)[|line + kept|..cut]
    ensures (line + kept)[|line + kept| - 1] == NEWLINE
  {
    assert (line + rest)[|line + kept|..cut] == rest[|kept|..cut - |line|];
  }

  lemma {:induction false} EndsWithNewline<T>(c: Codec<T>, events: seq<T>)
    ensures var raw := Encode(c, events); raw == [] || raw[|raw| - 1] == NEWLINE
  {
    if events != [] {
      EndsWithNewline(c, events[1..]);
    }
  }

  /** The log file on disk. */
  class LogFile<T(!new)> {
    const codec: Codec<T>
    var bytes: seq<Byte>

    constructor (codec: Codec<T>)
      ensures this.codec == codec && bytes == []
    {
      this.codec, bytes := codec, [];
    }

    /** `_append_event`, when the write completes. */
    method AppendEvent(e: T)
      modifies this
      ensures bytes == old(bytes) + Line(codec, e)
    {
      bytes := bytes + (codec.encode(e) + [NEWLINE]);
    }

    /** `_read_events`: drop a partial last record, in the file too, then parse every line. */
    method ReadEvents() returns (events: Option<seq<T>>)
      modifies this
      ensures bytes == old(bytes)[..WholeLines(old(bytes))]
      ensures events == DecodeAll(codec, SplitLines(bytes))
    {
      var n := |bytes|;
      assert bytes[..n] == bytes;
      while n > 0 && bytes[n - 1] != NEWLINE
        invariant 0 <= n <= |bytes| && WholeLines(bytes[..n]) == WholeLines(bytes)
      {
        assert bytes[..n][..n - 1] == bytes[..n - 1];
        n := n - 1;
      }
      assert WholeLines(bytes[..n]) == n;
      assert n == WholeLines(bytes);
      bytes := bytes[..n];
      assert bytes == old(bytes)[..WholeLines(old(bytes))];
      var lines := SplitLines(bytes);
      var parsed: seq<T> := [];
      for i := 0 to |lines|
        invariant bytes == old(bytes)[..WholeLines(old(bytes))]
        invariant DecodeAll(codec, lines[..i]) == Some(parsed)
      {
        var value := codec.decode(lines[i]);
        if value.None? {
          CorruptLine(codec, lines, i);
          return None;
        }
        DecodeSnoc(codec, lines[..i], lines[i]);
        assert lines[..i + 1] == lines[..i] + [lines[i]];
        parsed := parsed + [value.value];
      }
      assert lines[..|lines|] == lines;
      events := Some(parsed);
    }
  }

  lemma {:induction false} DecodeSnoc<T>(c: Codec<T>, lines: seq<seq<Byte>>, line: seq<Byte>)
    requires DecodeAll(c, lines).Some? && c.decode(line).Some?
    ensures DecodeAll(c, lines + [line]) == Some(DecodeAll(c, lines).value + [c.decode(line).value])
  {
    if lines == [] {
      var last := c.decode(line).value;
      assert lines + [line] == [line] && [line][1..] == [];
      assert DecodeAll(c, [line]) == Some([last] + []);
      assert [] + [last] == [last] + [];
    } else {
      assert (lines + [line])[1..] == lines[1..] + [line];
      DecodeSnoc(c, lines[1..], line);
      var first, rest, last := c.decode(lines[0]).value, DecodeAll(c, lines[1..]).value, c.decode(line).value;
      assert [first] + (rest + [last]) == [first] + rest + [last];
    }
  }

  lemma {:induction false} CorruptLine<T>(c: Codec<T>, lines: seq<seq<Byte>>, i: nat)
    requires i < |lines| && c.decode(lines[i]).None?
    ensures DecodeAll(c, lines).None?
  {
    if i > 0 {
      CorruptLine(c, lines[1..], i - 1);
    }
  }

  /** Cut the file at any byte and open it again: exactly the events whose whole line was written
      are recovered, the file then holds exactly their lines, and later appends extend that list. */
  lemma {:induction false} CutFileRecovers<T(!new)>(c: Codec<T>, events: seq<T>, cut: nat, more: seq<T>)
    requires Faithful(c) && cut <= |Encode(c, events)|
    ensures var kept := events[..WholeEvents(c, events, cut)];
      var raw := Encode(c, events)[..cut];
      && raw[..WholeLines(raw)] == Encode(c, kept)
      && DecodeAll(c, SplitLines(raw[..WholeLines(raw)])) == Some(kept)
      && DecodeAll(c, SplitLines(raw[..WholeLines(raw)] + Encode(c, more))) == Some(kept + more)
  {
    var kept := events[..WholeEvents(c, events, cut)];
    var raw := Encode(c, events)[..cut];
    CutSplits(c, events, cut);
    var whole := Encode(c, kept);
    assert raw == whole + Encode(c, events)[|whole|..cut];
    WholeLinesOf(whole, Encode(c, events)[|whole|..cut]);
    assert raw[..|whole|] == whole;
    DecodeEncode(c, kept);
    EncodeAppend(c, kept, more);
    DecodeEncode(c, kept + more);
  }

  /** Which events survive: event `i` is recovered if and only if the cut lies at or behind the
      end of its line. */
  lemma {:induction false} RecoveredIff<T(!new)>(c: Codec<T>, events: seq<T>, cut: nat, i: nat)
    requires i < |events|
    ensures i < WholeEvents(c, events, cut) <==> |Encode(c, events[..i + 1])| <= cut
  {
    var line := Line(c, events[0]);
    assert events[..i + 1][1..] == events[1..][..i];
    if i == 0 {
      assert Encode(c, events[..1]) == line + Encode(c, []);
    } else {
      assert Encode(c, events[..i + 1]) == line + Encode(c, events[1..][..i]);
      if |line| <= cut {
        RecoveredIff(c, events[1..], cut - |line|, i - 1);
      }
    }
  }
}
