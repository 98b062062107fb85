/** Reading the target-signal list (vcd2csv/vcd2csv.py:25-61). Each line of the
    file arrives already split on white space; the first token names a signal,
    and the others are either the single marker CLOCK or bit-range tokens. */
module SignalList {
  import opened Common
  import opened Numerals

  /** A token produced by `str.split()`: never empty. */
  type Token = s: string | |s| > 0 witness "0"

  /** An inclusive range of bit positions, high first, as written `[high:low]`. */
  datatype Range = Range(high: int, low: int)

  /** The signal list once read: the signals in the order the script extracts
      them (clock first), the bit ranges asked for per signal, and the clock. */
  datatype Targets = Targets(signals: seq<string>, ranges: map<string, seq<Range>>, clock: string)

  // ---------------------------------------------------------------------------
  // `s.split(":")[k]`

  /** The text of s before its first ':' (all of s when it has none). */
  function Before(s: string): string
  {
    if |s| == 0 || s[0] == ':' then [] else [s[0]] + Before(s[1..])
  }

  /** The text of s after its first ':', if it has one. */
  function After(s: string): Option<string>
  {
    if |s| == 0 then None else if s[0] == ':' then Some(s[1..]) else After(s[1..])
  }

  /** `s.split(":")[k]`, or None where Python raises IndexError. */
  function Field(s: string, k: nat): Option<string>
    decreases |s|
  {
    if k == 0 then Some(Before(s))
    else match After(s)
      case None => None
      case Some(rest) =>
        AfterShorter(s);
        Field(rest, k - 1)
  }

  lemma {:induction false} AfterShorter(s: string)
    ensures After(s).Some? ==> |After(s).value| < |s|
  {
    if |s| > 0 && s[0] != ':' {
      AfterShorter(s[1..]);
    }
  }

  lemma {:induction false} SplitAtColon(x: string, y: string)
    requires ':' !in x
    ensures Before(x + ":" + y) == x && After(x + ":" + y) == Some(y)
  {
    if |x| > 0 {
      assert (x + ":" + y)[1..] == x[1..] + ":" + y;
      SplitAtColon(x[1..], y);
    } else {
      assert x + ":" + y == [':'] + y;
    }
  }

  lemma {:induction false} NoColon(x: string)
    requires ':' !in x
    ensures Before(x) == x && After(x) == None
  {
    if |x| > 0 {
      NoColon(x[1..]);
    }
  }

  // ---------------------------------------------------------------------------
  // One bit-range token (lines 44-54).

  /** A token `N` is the range N..N; a token `[H:L]` is H..L, its two numbers
      read from `tok[1:].split(":")[0]` and `tok[:-1].split(":")[1]`. The high
      bit below the low bit stops the script (the message on line 54 adds an
      int to a str, which raises). */
  function ParseRangeToken(tok: Token): (r: Result<Range>)
    ensures r.Ok? ==> r.value.low <= r.value.high
  {
    var parsed :=
      if tok[0] == '[' then
        if tok[|tok| - 1] != ']' then Err(IncompleteRange)
        else
          var high := ParseInt(Before(tok[1..]));
          var lowField := Field(tok[..|tok| - 1], 1);
          if high.None? then Err(NotAnInteger)
          else if lowField.None? then Err(NotAnInteger)
          else
            var low := ParseInt(lowField.value);
            if low.None? then Err(NotAnInteger) else Ok(Range(high.value, low.value))
      else
        var n := ParseInt(tok);
        if n.None? then Err(NotAnInteger) else Ok(Range(n.value, n.value));
    if parsed.Ok? && parsed.value.high < parsed.value.low then Err(IllegalRange) else parsed
  }

  /** A token opening with `[` but not closing with `]` stops the script
      (lines 45-48). */
  lemma UnclosedRange(tok: Token)
    requires tok[0] == '[' && tok[|tok| - 1] != ']'
    ensures ParseRangeToken(tok) == Err(IncompleteRange)
  {
  }

  lemma NoColonInNumber(n: int)
    ensures ':' !in IntToString(n) && '[' != IntToString(n)[0]
  {
    IntToStringCharacters(n);
  }

  /** The token `str(n)` reads back as the one-bit range n..n. */
  lemma RangeTokenOfIndex(n: int)
    ensures |IntToString(n)| > 0
    ensures ParseRangeToken(IntToString(n)) == Ok(Range(n, n))
  {
    IntToStringCharacters(n);
    NoColonInNumber(n);
    ParseIntOfString(n);
  }

  /** The token `[str(h):str(l)]` reads back as the range h..l when h >= l,
      and is refused as illegal otherwise. */
  lemma RangeTokenOfPair(h: int, l: int)
    ensures ParseRangeToken(RangeText(h, l)) ==
      if h < l then Err(IllegalRange) else Ok(Range(h, l))
  {
    var hs, ls := IntToString(h), IntToString(l);
    var tok := RangeText(h, l);
    NoColonInNumber(h);
    NoColonInNumber(l);
    ParseIntOfString(h);
    ParseIntOfString(l);
    assert tok[1..] == hs + ":" + (ls + "]");
    SplitAtColon(hs, ls + "]");
    assert tok[..|tok| - 1] == "[" + hs + ":" + ls;
    SplitAtColon("[" + hs, ls);
    NoColon(ls);
    assert Field(tok[..|tok| - 1], 1) == Some(ls);
  }

  /** The text `[h:l]` of a range, as the header of lines 134-135 writes it. */
  function RangeText(h: int, l: int): (s: Token)
  {
    "[" + IntToString(h) + ":" + IntToString(l) + "]"
  }

  // ---------------------------------------------------------------------------
  // All the range tokens of one line.

  /** Token k is the first token of toks that does not read as a range. */
  predicate FirstBadToken(toks: seq<Token>, k: int)
  {
    0 <= k < |toks| && ParseRangeToken(toks[k]).Err? &&
    forall j :: 0 <= j < k ==> ParseRangeToken(toks[j]).Ok?
  }

  /** The ranges of a line in declaration order, or the error of its first bad token. */
  function ParseRanges(toks: seq<Token>): (r: Result<seq<Range>>)
    ensures r.Ok? <==> forall k :: 0 <= k < |toks| ==> ParseRangeToken(toks[k]).Ok?
    ensures r.Ok? ==> |r.value| == |toks|
    ensures r.Ok? ==> forall k :: 0 <= k < |toks| ==> r.value[k] == ParseRangeToken(toks[k]).value
    ensures r.Err? ==> exists k :: FirstBadToken(toks, k) && ParseRangeToken(toks[k]) == Err(r.error)
  {
    if |toks| == 0 then Ok([])
    else match ParseRangeToken(toks[0])
      case Err(e) => Err(e)
      case Ok(first) =>
        match ParseRanges(toks[1..])
          case Err(e) =>
            assert forall k :: 1 <= k < |toks| ==> toks[k] == toks[1..][k - 1];
            Err(e)
          case Ok(rest) =>
            assert forall k :: 1 <= k < |toks| ==> toks[k] == toks[1..][k - 1];
            Ok([first] + rest)
  }

  /** The inner loop of lines 44-54: append the range of each token in turn,
      stopping at the first bad one. */
  method CollectRanges(toks: seq<Token>) returns (r: Result<seq<Range>>)
    ensures r == ParseRanges(toks)
  {
    var ranges: seq<Range> := [];
    var k := 0;
    while k < |toks|
      invariant 0 <= k <= |toks|
      invariant ParseRanges(toks[..k]) == Ok(ranges)
    {
      var range := ParseRangeToken(toks[k]);
      if range.Err? {
        r := Err(range.error);
        PrefixError(toks, k);
        return;
      }
      PrefixOk(toks, k, ranges);
      ranges := ranges + [range.value];
      k := k + 1;
    }
    assert toks[..k] == toks;
    r := Ok(ranges);
  }

  lemma PrefixOk(toks: seq<Token>, k: nat, ranges: seq<Range>)
    requires k < |toks| && ParseRanges(toks[..k]) == Ok(ranges) && ParseRangeToken(toks[k]).Ok?
    ensures ParseRanges(toks[..k + 1]) == Ok(ranges + [ParseRangeToken(toks[k]).value])
  {
    var p := toks[..k + 1];
    assert forall j :: 0 <= j < k ==> p[j] == toks[..k][j];
    var r := ParseRanges(p);
    assert r.Ok?;
    assert r.value == ranges + [ParseRangeToken(toks[k]).value];
  }

  lemma PrefixError(toks: seq<Token>, k: nat)
    requires k < |toks| && ParseRanges(toks[..k]).Ok? && ParseRangeToken(toks[k]).Err?
    ensures ParseRanges(toks) == Err(ParseRangeToken(toks[k]).error)
  {
    assert forall j :: 0 <= j < k ==> toks[..k][j] == toks[j];
    var r := ParseRanges(toks);
    var j :| FirstBadToken(toks, j) && ParseRangeToken(toks[j]) == Err(r.error);
    assert j == k;
  }

  // ---------------------------------------------------------------------------
  // One line.

  datatype LineKind =
    | ClockLine(name: string)                         // `<name> CLOCK`
    | PlainLine(name: string)                         // `<name>`
    | RangedLine(name: string, ranges: seq<Range>)    // `<name> <range> ...`
    | BadLine(error: Error)

  /** What one line of the list declares (lines 30-54). */
  function Classify(tokens: seq<Token>): LineKind
  {
    if |tokens| == 0 then BadLine(BlankLine)
    else if |tokens| == 2 && tokens[1] == "CLOCK" then ClockLine(tokens[0])
    else if |tokens| == 1 then PlainLine(tokens[0])
    else match ParseRanges(tokens[1..])
      case Ok(ranges) => RangedLine(tokens[0], ranges)
      case Err(e) => BadLine(e)
  }

  /** A line of two tokens, the second `CLOCK`, marks its first token as the
      clock (lines 33-41). */
  lemma ClockLineClassified(tokens: seq<Token>)
    requires |tokens| == 2 && tokens[1] == "CLOCK"
    ensures Classify(tokens) == ClockLine(tokens[0])
  {
  }

  /** The first token of every line, in file order: the list `sigs` before the
      clock is moved. */
  function Names(lines: seq<seq<Token>>): (names: seq<string>)
    ensures |names| == |lines|
  {
    seq(|lines|, i requires 0 <= i < |lines| => if |lines[i]| > 0 then lines[i][0] else "")
  }

  /** The number of clock lines. */
  function ClockCount(lines: seq<seq<Token>>): nat
  {
    if |lines| == 0 then 0
    else ClockCount(lines[..|lines| - 1]) + (if Classify(lines[|lines| - 1]).ClockLine? then 1 else 0)
  }

  /** `sig_ranges` after the given lines: each ranged line replaces the
      entry of its signal. */
  function RangesMap(lines: seq<seq<Token>>): map<string, seq<Range>>
  {
    if |lines| == 0 then map[]
    else
      var m := RangesMap(lines[..|lines| - 1]);
      match Classify(lines[|lines| - 1])
        case RangedLine(name, ranges) => m[name := ranges]
        case _ => m
  }

  /** Line k stops the script: it is malformed, or it is a second clock line. */
  predicate Stops(lines: seq<seq<Token>>, k: nat)
    requires k < |lines|
  {
    Classify(lines[k]).BadLine? || (Classify(lines[k]).ClockLine? && ClockCount(lines[..k]) > 0)
  }

  /** Line k is the first line that stops the script. */
  predicate FirstStop(lines: seq<seq<Token>>, k: int)
  {
    0 <= k < |lines| && Stops(lines, k) && forall j :: 0 <= j < k ==> !Stops(lines, j)
  }

  function StopError(lines: seq<seq<Token>>, k: nat): Error
    requires k < |lines|
  {
    if Classify(lines[k]).BadLine? then Classify(lines[k]).error else MultipleClocks
  }

  lemma PrefixStep(lines: seq<seq<Token>>, i: nat)
    requires i < |lines|
    ensures Names(lines[..i + 1]) == Names(lines[..i]) + [if |lines[i]| > 0 then lines[i][0] else ""]
    ensures ClockCount(lines[..i + 1]) == ClockCount(lines[..i]) + (if Classify(lines[i]).ClockLine? then 1 else 0)
    ensures RangesMap(lines[..i + 1]) ==
      if Classify(lines[i]).RangedLine? then RangesMap(lines[..i])[Classify(lines[i]).name := Classify(lines[i]).ranges]
      else RangesMap(lines[..i])
  {
    assert lines[..i + 1][..i] == lines[..i];
  }

  lemma {:induction false} ClockCountGrows(lines: seq<seq<Token>>, i: nat)
    requires i <= |lines|
    ensures ClockCount(lines[..i]) <= ClockCount(lines)
    decreases |lines| - i
  {
    if i < |lines| {
      PrefixStep(lines, i);
      ClockCountGrows(lines, i + 1);
    } else {
      assert lines[..i] == lines;
    }
  }

  /** Python's `list.remove(x)`: drop the first occurrence of x. */
  function RemoveFirst<T(==)>(s: seq<T>, x: T): seq<T>
  {
    if |s| == 0 then []
    else if s[0] == x then s[1..]
    else [s[0]] + RemoveFirst(s[1..], x)
  }

  /** Lines 30-54 for one line: the signal name, then either the clock
      marker or the bit ranges that follow it. */
  method ReadLine(tokens: seq<Token>) returns (line: LineKind)
    ensures line == Classify(tokens)
  {
    if |tokens| == 0 {
      return BadLine(BlankLine);
    }
    var sig := tokens[0];
    if |tokens| == 2 && tokens[1] == "CLOCK" {
      return ClockLine(sig);
    }
    if |tokens| > 1 {
      var ranges := CollectRanges(tokens[1..]);
      if ranges.Err? {
        return BadLine(ranges.error);
      }
      return RangedLine(sig, ranges.value);
    }
    return PlainLine(sig);
  }

  // ---------------------------------------------------------------------------
  // The whole list (lines 25-61).

  /** The script's state while it reads the list: `sigs`, `sig_ranges`, and
      the clock once `found_clock` is set. */
  datatype Reading = Reading(sigs: seq<string>, ranges: map<string, seq<Range>>, clock: Option<string>)

  /** What one more line does to the state: a malformed line or a second clock
      line stops the script, any other line appends its signal. */
  function NextReading(st: Reading, line: LineKind): Result<Reading>
  {
    match line
      case BadLine(e) => Err(e)
      case ClockLine(name) =>
        if st.clock.Some? then Err(MultipleClocks) else Ok(Reading(st.sigs + [name], st.ranges, Some(name)))
      case RangedLine(name, ranges) => Ok(Reading(st.sigs + [name], st.ranges[name := ranges], st.clock))
      case PlainLine(name) => Ok(Reading(st.sigs + [name], st.ranges, st.clock))
  }

  /** The state after the given lines, or the error that stopped the script. */
  function ReadLines(lines: seq<seq<Token>>): Result<Reading>
  {
    if |lines| == 0 then Ok(Reading([], map[], None))
    else match ReadLines(lines[..|lines| - 1])
      case Err(e) => Err(e)
      case Ok(st) => NextReading(st, Classify(lines[|lines| - 1]))
  }

  /** The whole of lines 25-61: read every line, insist on a clock, then move
      it to the front of the list. */
  function ParseList(lines: seq<seq<Token>>): Result<Targets>
  {
    match ReadLines(lines)
      case Err(e) => Err(e)
      case Ok(st) =>
        if st.clock.None? then Err(NoClock)
        else Ok(Targets([st.clock.value] + RemoveFirst(st.sigs, st.clock.value), st.ranges, st.clock.value))
  }

  /** Once the script has stopped, later lines change nothing. */
  lemma {:induction false} ReadLinesSticks(lines: seq<seq<Token>>, k: nat)
    requires k <= |lines| && ReadLines(lines[..k]).Err?
    ensures ReadLines(lines) == ReadLines(lines[..k])
    decreases |lines|
  {
    if k == |lines| {
      assert lines[..k] == lines;
    } else {
      var init := lines[..|lines| - 1];
      assert init[..k] == lines[..k];
      ReadLinesSticks(init, k);
    }
  }

  /** Reads the list line by line as the script does, then moves the clock to
      the front. */
  method ParseSignalList(lines: seq<seq<Token>>) returns (r: Result<Targets>)
    ensures r == ParseList(lines)
  {
    var sigs: seq<string> := [];
    var sigRanges: map<string, seq<Range>> := map[];
    var foundClock := false;
    var clockName := "";
    var i := 0;
    while i < |lines|
      invariant 0 <= i <= |lines|
      invariant ReadLines(lines[..i]) == Ok(Reading(sigs, sigRanges, if foundClock then Some(clockName) else None))
    {
      var line := ReadLine(lines[i]);
      assert lines[..i + 1][..i] == lines[..i];
      if line.BadLine? {
        r := Err(line.error);
        ReadLinesSticks(lines, i + 1);
        return;
      }
      sigs := sigs + [line.name];
      match line {
        case ClockLine(sig) =>
          if !foundClock {
            foundClock := true;
            clockName := sig;
          } else {
            r := Err(MultipleClocks);
            ReadLinesSticks(lines, i + 1);
            return;
          }
        case RangedLine(sig, ranges) =>
          sigRanges := sigRanges[sig := ranges];
        case PlainLine(_) =>
      }
      i := i + 1;
    }
    assert lines[..i] == lines;
    if !foundClock {
      r := Err(NoClock);
      return;
    }
    sigs := [clockName] + RemoveFirst(sigs, clockName);
    r := Ok(Targets(sigs, sigRanges, clockName));
  }

  /** Whether line k stops the script depends only on the lines up to k. */
  lemma StopsInPrefix(lines: seq<seq<Token>>, m: nat, k: nat)
    requires k < m <= |lines|
    ensures Stops(lines[..m], k) == Stops(lines, k)
    ensures StopError(lines[..m], k) == StopError(lines, k)
  {
    assert lines[..m][k] == lines[k];
    assert lines[..m][..k] == lines[..k];
  }

  /** A state the script reaches has read every line so far without stopping:
      it holds their names in file order, the ranges of `RangesMap`, and the
      clock exactly when one clock line was read. */
  lemma {:induction false} ReadLinesOk(lines: seq<seq<Token>>)
    requires ReadLines(lines).Ok?
    ensures forall k :: 0 <= k < |lines| ==> !Stops(lines, k)
    ensures ReadLines(lines).value.sigs == Names(lines)
    ensures ReadLines(lines).value.ranges == RangesMap(lines)
    ensures ClockCount(lines) <= 1
    ensures ReadLines(lines).value.clock.Some? <==> ClockCount(lines) == 1
    ensures ReadLines(lines).value.clock.Some? ==>
      exists c :: 0 <= c < |lines| && Classify(lines[c]) == ClockLine(ReadLines(lines).value.clock.value)
  {
    if |lines| > 0 {
      var n := |lines| - 1;
      var init := lines[..n];
      ReadLinesOk(init);
      PrefixStep(lines, n);
      assert lines[..n + 1] == lines;
      forall k | 0 <= k < n
        ensures !Stops(lines, k)
      {
        StopsInPrefix(lines, n, k);
      }
      var st := ReadLines(init).value;
      if st.clock.Some? {
        var c :| 0 <= c < n && Classify(init[c]) == ClockLine(st.clock.value);
        assert init[c] == lines[c];
      }
    }
  }

  /** A script that stops, stops at the first line that is malformed or is a
      second clock line, with that line's error. */
  lemma {:induction false} ReadLinesErr(lines: seq<seq<Token>>)
    requires ReadLines(lines).Err?
    ensures exists k :: FirstStop(lines, k) && ReadLines(lines).error == StopError(lines, k)
  {
    var n := |lines| - 1;
    var init := lines[..n];
    if ReadLines(init).Err? {
      ReadLinesErr(init);
      var k :| FirstStop(init, k) && ReadLines(init).error == StopError(init, k);
      forall j | 0 <= j <= k
        ensures Stops(init, j) == Stops(lines, j)
      {
        StopsInPrefix(lines, n, j);
      }
      StopsInPrefix(lines, n, k);
      assert FirstStop(lines, k);
    } else {
      ReadLinesOk(init);
      forall j | 0 <= j < n
        ensures !Stops(lines, j)
      {
        StopsInPrefix(lines, n, j);
      }
      assert lines[..n] == init;
      assert FirstStop(lines, n);
    }
  }

  /** What reading the list yields: it succeeds exactly when no line is
      malformed and there is exactly one clock line; it then names that clock,
      puts it in front of the other signals in file order, and keeps the ranges
      of `RangesMap`. Otherwise it fails at the first line that stops the
      script, or with NoClock when no line does and no clock was declared. */
  lemma ParseListMeaning(lines: seq<seq<Token>>)
    ensures ParseList(lines).Ok? <==>
      (forall k :: 0 <= k < |lines| ==> !Classify(lines[k]).BadLine?) && ClockCount(lines) == 1
    ensures ParseList(lines).Ok? ==>
      exists c :: 0 <= c < |lines| && Classify(lines[c]) == ClockLine(ParseList(lines).value.clock)
    ensures ParseList(lines).Ok? ==>
      ParseList(lines).value.signals == [ParseList(lines).value.clock] + RemoveFirst(Names(lines), ParseList(lines).value.clock)
    ensures ParseList(lines).Ok? ==> ParseList(lines).value.ranges == RangesMap(lines)
    ensures ParseList(lines).Err? ==>
      (exists k :: FirstStop(lines, k) && ParseList(lines).error == StopError(lines, k)) ||
      ((forall k :: 0 <= k < |lines| ==> !Stops(lines, k)) && ClockCount(lines) == 0 && ParseList(lines).error == NoClock)
  {
    var read := ReadLines(lines);
    if read.Ok? {
      ReadLinesOk(lines);
      assert forall k :: 0 <= k < |lines| ==> !Classify(lines[k]).BadLine? by {
        forall k | 0 <= k < |lines|
          ensures !Classify(lines[k]).BadLine?
        {
          assert !Stops(lines, k);
        }
      }
      if read.value.clock.Some? {
        assert ParseList(lines) == Ok(Targets([read.value.clock.value] + RemoveFirst(read.value.sigs, read.value.clock.value), read.value.ranges, read.value.clock.value));
      } else {
        assert ParseList(lines) == Err(NoClock);
      }
    } else {
      assert ParseList(lines) == Err(read.error);
      ReadLinesErr(lines);
      var k :| FirstStop(lines, k) && read.error == StopError(lines, k);
      if !Classify(lines[k]).BadLine? {
        assert Classify(lines[k]).ClockLine? && ClockCount(lines[..k]) > 0;
        PrefixStep(lines, k);
        ClockCountGrows(lines, k + 1);
        assert ClockCount(lines) >= 2;
      }
    }
  }

  // ---------------------------------------------------------------------------
  // What the parsed list means.

  /** Line `line` asks for bit ranges of signal `name`. */
  predicate DeclaresRanges(line: seq<Token>, name: string)
  {
    Classify(line).RangedLine? && Classify(line).name == name
  }

  /** Line k is the last line asking for ranges of `name`. */
  predicate LastDeclaration(lines: seq<seq<Token>>, name: string, k: int)
  {
    0 <= k < |lines| && DeclaresRanges(lines[k], name) &&
    forall j :: k < j < |lines| ==> !DeclaresRanges(lines[j], name)
  }

  /** A signal has ranges exactly when some line asks for them. */
  lemma {:induction false} RangesMapKeys(lines: seq<seq<Token>>, name: string)
    ensures name in RangesMap(lines) <==> exists k :: 0 <= k < |lines| && DeclaresRanges(lines[k], name)
  {
    if |lines| > 0 {
      RangesMapKeys(lines[..|lines| - 1], name);
      RangesMapStep(lines, name);
      DeclarationStep(lines, name);
    }
  }

  /** The last line adds its signal to the map, or leaves the map's keys as
      they were. */
  lemma RangesMapStep(lines: seq<seq<Token>>, name: string)
    requires |lines| > 0
    ensures name in RangesMap(lines) <==>
      name in RangesMap(lines[..|lines| - 1]) || DeclaresRanges(lines[|lines| - 1], name)
  {
  }

  /** Some line asks for ranges of `name` exactly when an earlier line or the
      last one does. */
  lemma DeclarationStep(lines: seq<seq<Token>>, name: string)
    requires |lines| > 0
    ensures Declared(lines, name) <==> Declared(lines[..|lines| - 1], name) || DeclaresRanges(lines[|lines| - 1], name)
  {
    assert forall k :: 0 <= k < |lines| - 1 ==> lines[..|lines| - 1][k] == lines[k];
  }

  predicate Declared(lines: seq<seq<Token>>, name: string)
  {
    exists k :: 0 <= k < |lines| && DeclaresRanges(lines[k], name)
  }

  /** ... and then it has those of the last such line: a later line replaces
      an earlier one (line 43 resets the list). */
  lemma {:induction false} RangesMapLastWins(lines: seq<seq<Token>>, name: string)
    requires name in RangesMap(lines)
    ensures exists k :: LastDeclaration(lines, name, k) && RangesMap(lines)[name] == Classify(lines[k]).ranges
  {
    var n := |lines| - 1;
    if DeclaresRanges(lines[n], name) {
      assert LastDeclaration(lines, name, n);
    } else {
      var init := lines[..n];
      assert name in RangesMap(init);
      RangesMapLastWins(init, name);
      var k :| LastDeclaration(init, name, k) && RangesMap(init)[name] == Classify(init[k]).ranges;
      LastDeclarationExtends(lines, name, k);
    }
  }

  /** A last declaration stays last when a line that does not ask for ranges
      of the same signal follows it. */
  lemma LastDeclarationExtends(lines: seq<seq<Token>>, name: string, k: int)
    requires |lines| > 0 && LastDeclaration(lines[..|lines| - 1], name, k)
    requires !DeclaresRanges(lines[|lines| - 1], name)
    ensures LastDeclaration(lines, name, k)
  {
    var init := lines[..|lines| - 1];
    forall j | k < j < |lines|
      ensures !DeclaresRanges(lines[j], name)
    {
      if j < |lines| - 1 {
        assert init[j] == lines[j];
      }
    }
    assert init[k] == lines[k];
  }

  /** Every range of the map has its high bit at or above its low bit. */
  predicate LegalRanges(m: map<string, seq<Range>>)
  {
    forall n, k :: n in m && 0 <= k < |m[n]| ==> m[n][k].low <= m[n][k].high
  }

  /** The checks of lines 53-54 leave only legal ranges in `sig_ranges`. */
  lemma {:induction false} RangesMapLegal(lines: seq<seq<Token>>)
    ensures LegalRanges(RangesMap(lines))
  {
    if |lines| > 0 {
      RangesMapLegal(lines[..|lines| - 1]);
      var tokens := lines[|lines| - 1];
      if Classify(tokens).RangedLine? {
        RangedLineRanges(tokens);
      }
    }
  }

  /** An accepted list names the clock first and keeps only legal ranges. */
  lemma ParseListLegal(lines: seq<seq<Token>>)
    ensures ParseList(lines).Ok? ==>
      && |ParseList(lines).value.signals| >= 1
      && ParseList(lines).value.signals[0] == ParseList(lines).value.clock
      && LegalRanges(ParseList(lines).value.ranges)
  {
    ParseListMeaning(lines);
    RangesMapLegal(lines);
  }

  /** The ranges of a ranged line are those of its tokens, in declaration order. */
  lemma RangedLineRanges(tokens: seq<Token>)
    requires Classify(tokens).RangedLine?
    ensures Classify(tokens).name == tokens[0]
    ensures |Classify(tokens).ranges| == |tokens| - 1
    ensures forall k :: 1 <= k < |tokens| ==>
      Classify(tokens).ranges[k - 1] == ParseRangeToken(tokens[k]).value
  {
    var rs := ParseRanges(tokens[1..]).value;
    assert forall k :: 1 <= k < |tokens| ==> tokens[1..][k - 1] == tokens[k];
  }

  /** `list.remove(x)` deletes the first occurrence of x and keeps the order
      of everything else. */
  lemma {:induction false} RemoveFirstSpec<T>(s: seq<T>, x: T)
    requires x in s
    ensures exists k :: FirstOccurrence(s, x, k) && RemoveFirst(s, x) == s[..k] + s[k + 1..]
  {
    if s[0] == x {
      assert FirstOccurrence(s, x, 0);
      assert s[..0] + s[1..] == s[1..];
    } else {
      var t := s[1..];
      RemoveFirstSpec(t, x);
      var k :| FirstOccurrence(t, x, k) && RemoveFirst(t, x) == t[..k] + t[k + 1..];
      assert RemoveFirst(s, x) == [s[0]] + RemoveFirst(t, x);
      OccurrenceAfterHead(s, x, k);
    }
  }

  /** An occurrence found after a head that differs from x is the first one
      of the whole sequence, one place further on. */
  lemma OccurrenceAfterHead<T>(s: seq<T>, x: T, k: int)
    requires |s| > 0 && s[0] != x && FirstOccurrence(s[1..], x, k)
    ensures FirstOccurrence(s, x, k + 1)
    ensures [s[0]] + (s[1..][..k] + s[1..][k + 1..]) == s[..k + 1] + s[k + 2..]
  {
    var t := s[1..];
    assert s[..k + 1] == [s[0]] + t[..k];
    assert s[k + 2..] == t[k + 1..];
  }

  predicate FirstOccurrence<T(==)>(s: seq<T>, x: T, k: int)
  {
    0 <= k < |s| && s[k] == x && x !in s[..k]
  }

  /** Moving x to the front loses and gains nothing. */
  lemma {:induction false} RemoveFirstMultiset<T>(s: seq<T>, x: T)
    requires x in s
    ensures multiset([x] + RemoveFirst(s, x)) == multiset(s)
  {
    assert s == [s[0]] + s[1..];
    if s[0] == x {
      assert [x] + RemoveFirst(s, x) == s;
    } else {
      var rest := RemoveFirst(s[1..], x);
      RemoveFirstMultiset(s[1..], x);
      assert [x] + RemoveFirst(s, x) == [x] + ([s[0]] + rest);
      assert multiset([x] + ([s[0]] + rest)) == multiset([s[0]]) + multiset([x] + rest);
    }
  }

  /** After the move, the clock comes first, every other listed signal keeps
      its file order, and no signal is gained or lost. */
  lemma ClockMovedToFront(lines: seq<seq<Token>>, c: nat, clock: string)
    requires c < |lines| && Classify(lines[c]) == ClockLine(clock)
    ensures multiset([clock] + RemoveFirst(Names(lines), clock)) == multiset(Names(lines))
    ensures exists k ::
      FirstOccurrence(Names(lines), clock, k) && RemoveFirst(Names(lines), clock) == Names(lines)[..k] + Names(lines)[k + 1..]
  {
    assert Names(lines)[c] == clock;
    RemoveFirstSpec(Names(lines), clock);
    RemoveFirstMultiset(Names(lines), clock);
  }

  /** The line `foo [3:0] 7` asks for bits 3..0 and bit 7 of foo, in that order. */
  lemma ExampleRangedLine()
    ensures Classify(["foo", "[3:0]", "7"]) == RangedLine("foo", [Range(3, 0), Range(7, 7)])
  {
    RangeTokenOfPair(3, 0);
    RangeTokenOfIndex(7);
    assert RangeText(3, 0) == "[3:0]";
    assert IntToString(7) == "7";
  }
}
