/** The whole conversion (vcd2csv/vcd2csv.py:25-169): read the signal list,
    find the clock's first rising edge and period, resample and pad every
    other signal, then lay out the header and the rows. */
module Convert {
  import opened Common
  import opened SignalList
  import opened Clock
  import opened Traces
  import opened Table

  /** What the script writes: the header, the rows, and the number of x/z
      characters its warning reports. */
  datatype Output = Output(header: seq<string>, rows: seq<seq<nat>>, xz: nat)

  /** The shape of every table the script writes: `Cycle` and
      `Global_Distance` first in the header, at least one row, each row as
      wide as the header and numbered by its cycle, and every distance of the
      first row 0. */
  predicate Shaped(out: Output)
  {
    && |out.header| >= 2 && out.header[0] == "Cycle" && out.header[1] == "Global_Distance"
    && |out.rows| >= 1
    && (forall k :: 0 <= k < |out.rows| ==> |out.rows[k]| == |out.header| && out.rows[k][0] == k)
    && (forall p :: 0 <= p < |out.rows[0]| && p % 2 == 1 ==> out.rows[0][p] == 0)
  }

  // ---------------------------------------------------------------------------
  // The run as a value.

  /** Lines 128-169: the header and the rows of the padded traces. */
  function Layout(names: seq<string>, ranges: map<string, seq<Range>>, padded: map<string, seq<nat>>, maxClock: nat, xz: nat)
    : Result<Output>
    requires Ready(names, padded, maxClock) && LegalRanges(ranges)
  {
    match TableRows(names, ranges, padded, maxClock)
      case Err(e) => Err(e)
      case Ok(rows) => Ok(Output(Header(names, ranges), rows, xz))
  }

  /** Padding to max_clock+1 values traces no longer than that gives every
      listed signal a trace of exactly max_clock+1 values. */
  lemma PaddedReady(traces: map<string, seq<nat>>, names: seq<string>, maxClock: nat)
    requires forall n :: n in names ==> n in traces
    requires forall n :: n in traces ==> 1 <= |traces[n]| <= maxClock + 1
    ensures Ready(names, PadMap(traces, names, maxClock), maxClock)
  {
    forall n | n in names
      ensures |PadMap(traces, names, maxClock)[n]| == maxClock + 1
    {
      PaddedMeaning(traces[n], maxClock + 1);
    }
  }

  /** Lines 115-169: the table of the resampled traces once padded. */
  function PadLayout(res: Resampled, names: seq<string>, ranges: map<string, seq<Range>>): Result<Output>
    requires LegalRanges(ranges)
    requires forall n :: n in names ==> n in res.traces
    requires forall n :: n in res.traces ==> 1 <= |res.traces[n]| <= res.maxClock + 1
  {
    PaddedReady(res.traces, names, res.maxClock);
    Layout(names, ranges, PadMap(res.traces, names, res.maxClock), res.maxClock, res.xz)
  }

  /** Lines 90-169: resample the listed signals, pad them, lay out the table. */
  function Tabulated(vcd: map<string, seq<Entry>>, names: seq<string>, ranges: map<string, seq<Range>>, t0: int, period: int)
    : Result<Output>
    requires LegalRanges(ranges)
  {
    match ResampleNames(vcd, names, t0, period)
      case Err(e) => Err(e)
      case Ok(res) =>
        ResampledKeys(vcd, names, t0, period);
        ResampledLengths(vcd, names, t0, period);
        PadLayout(res, names, ranges)
  }

  /** Lines 75-169: find the clock's first rising edge and period, then
      resample, pad and lay out the listed signals. */
  function Clocked(vcd: map<string, seq<Entry>>, names: seq<string>, ranges: map<string, seq<Range>>, clock: seq<Entry>)
    : Result<Output>
    requires LegalRanges(ranges)
  {
    match ClockGeometry(clock)
      case Err(e) => Err(e)
      case Ok(g) => Tabulated(vcd, names, ranges, g.firstEdge, g.period)
  }

  /** Lines 25-169, with the waveform already read and keyed by the names the
      list uses: every stage in turn, each stopping the run with its error. */
  function Converted(lines: seq<seq<Token>>, vcd: map<string, seq<Entry>>): Result<Output>
  {
    match ParseList(lines)
      case Err(e) => Err(e)
      case Ok(targets) =>
        if targets.clock !in vcd then Err(SignalNotFound(targets.clock))
        else
          ParseListLegal(lines);
          Clocked(vcd, targets.signals[1..], targets.ranges, vcd[targets.clock])
  }

  /** A laid-out table is well shaped, and it fails exactly when some range
      has a negative low bit. */
  lemma LayoutShaped(names: seq<string>, ranges: map<string, seq<Range>>, padded: map<string, seq<nat>>, maxClock: nat, xz: nat)
    requires Ready(names, padded, maxClock) && LegalRanges(ranges)
    ensures Layout(names, ranges, padded, maxClock, xz).Ok? ==> Shaped(Layout(names, ranges, padded, maxClock, xz).value)
    ensures Layout(names, ranges, padded, maxClock, xz).Err? <==> NegativeLow(Columns(names, ranges))
    ensures Layout(names, ranges, padded, maxClock, xz).Err? ==> Layout(names, ranges, padded, maxClock, xz).error == NegativeShift
  {
    TableOutcome(names, ranges, padded, maxClock);
    var rows := TableRows(names, ranges, padded, maxClock);
    if rows.Ok? {
      var header := Header(names, ranges);
      HeaderShape(names, ranges);
      forall k | 0 <= k < |rows.value|
        ensures |rows.value[k]| == |header| && rows.value[k][0] == k
      {
        RowLayout(names, ranges, padded, k);
      }
      FirstRowZero(names, ranges, padded);
    }
  }

  /** From resampling on, the run succeeds exactly when every listed signal
      resamples and no range asks for a negative low bit; the table is then
      well shaped, with the header of the listed signals. */
  lemma TabulatedOutcome(vcd: map<string, seq<Entry>>, names: seq<string>, ranges: map<string, seq<Range>>, t0: int, period: int)
    requires LegalRanges(ranges)
    ensures Tabulated(vcd, names, ranges, t0, period).Ok? <==>
      ResampleNames(vcd, names, t0, period).Ok? && !NegativeLow(Columns(names, ranges))
    ensures Tabulated(vcd, names, ranges, t0, period).Ok? ==>
      && Shaped(Tabulated(vcd, names, ranges, t0, period).value)
      && Tabulated(vcd, names, ranges, t0, period).value.header == Header(names, ranges)
      && Tabulated(vcd, names, ranges, t0, period).value.xz == ResampleNames(vcd, names, t0, period).value.xz
  {
    var res := ResampleNames(vcd, names, t0, period);
    if res.Ok? {
      ResampledKeys(vcd, names, t0, period);
      ResampledLengths(vcd, names, t0, period);
      PaddedReady(res.value.traces, names, res.value.maxClock);
      LayoutShaped(names, ranges, PadMap(res.value.traces, names, res.value.maxClock), res.value.maxClock, res.value.xz);
    }
  }

  /** A clock whose geometry is found leads to the table of the signals
      resampled from its first rising edge at its period. */
  lemma ClockedAtGeometry(vcd: map<string, seq<Entry>>, names: seq<string>, ranges: map<string, seq<Range>>,
                          clock: seq<Entry>, g: Geometry)
    requires LegalRanges(ranges) && ClockGeometry(clock) == Ok(g)
    ensures Clocked(vcd, names, ranges, clock).Ok? <==>
      ResampleNames(vcd, names, g.firstEdge, g.period).Ok? && !NegativeLow(Columns(names, ranges))
    ensures Clocked(vcd, names, ranges, clock).Ok? ==>
      && Shaped(Clocked(vcd, names, ranges, clock).value)
      && Clocked(vcd, names, ranges, clock).value.header == Header(names, ranges)
  {
    assert Clocked(vcd, names, ranges, clock) == Tabulated(vcd, names, ranges, g.firstEdge, g.period);
    TabulatedOutcome(vcd, names, ranges, g.firstEdge, g.period);
  }

  /** The run gets through every stage after the signal list: the clock is in
      the waveform, its geometry is found (Clock.GeometryMeaning: its first
      rising edge has an entry two places after it), every other listed
      signal resamples from that edge at that period, and no range asks for a
      negative low bit. */
  predicate Completes(targets: Targets, vcd: map<string, seq<Entry>>)
  {
    && |targets.signals| >= 1
    && targets.clock in vcd
    && ClockGeometry(vcd[targets.clock]).Ok?
    && (var g := ClockGeometry(vcd[targets.clock]).value;
        ResampleNames(vcd, targets.signals[1..], g.firstEdge, g.period).Ok?)
    && !NegativeLow(Columns(targets.signals[1..], targets.ranges))
  }

  /** The run succeeds exactly when the signal list is accepted and every
      later stage gets through. A table it writes is well shaped, with the
      header of the listed signals other than the clock. */
  lemma ConvertedOutcome(lines: seq<seq<Token>>, vcd: map<string, seq<Entry>>)
    ensures Converted(lines, vcd).Ok? <==> ParseList(lines).Ok? && Completes(ParseList(lines).value, vcd)
    ensures Converted(lines, vcd).Ok? ==>
      && Shaped(Converted(lines, vcd).value)
      && Converted(lines, vcd).value.header == Header(ParseList(lines).value.signals[1..], ParseList(lines).value.ranges)
  {
    ParseListLegal(lines);
    var parsed := ParseList(lines);
    if parsed.Ok? && parsed.value.clock in vcd {
      var targets := parsed.value;
      var g := ClockGeometry(vcd[targets.clock]);
      if g.Ok? {
        ClockedAtGeometry(vcd, targets.signals[1..], targets.ranges, vcd[targets.clock], g.value);
      }
    }
  }

  // ---------------------------------------------------------------------------
  // The run as the script performs it.

  /** Lines 128-169: the header, then every row, from the padded traces. */
  method Lay(names: seq<string>, ranges: map<string, seq<Range>>, padded: map<string, seq<nat>>, maxClock: nat, xz: nat)
    returns (r: Result<Output>)
    requires Ready(names, padded, maxClock) && LegalRanges(ranges)
    ensures r == Layout(names, ranges, padded, maxClock, xz)
    ensures r.Ok? ==> r.value.header == Header(names, ranges) && TableRows(names, ranges, padded, maxClock) == Ok(r.value.rows)
    ensures r.Ok? ==> Shaped(r.value) && r.value.xz == xz
    ensures r.Err? <==> NegativeLow(Columns(names, ranges))
  {
    LayoutShaped(names, ranges, padded, maxClock, xz);
    var header := BuildHeader(names, ranges);
    var rows := BuildTable(names, ranges, padded, maxClock);
    if rows.Err? {
      return Err(rows.error);
    }
    r := Ok(Output(header, rows.value, xz));
  }

  /** Lines 115-169: pad the resampled traces, then lay out the table. */
  method PadAndLay(res: Resampled, names: seq<string>, ranges: map<string, seq<Range>>) returns (r: Result<Output>)
    requires LegalRanges(ranges)
    requires forall n :: n in names ==> n in res.traces
    requires forall n :: n in res.traces ==> 1 <= |res.traces[n]| <= res.maxClock + 1
    ensures r == PadLayout(res, names, ranges)
    ensures r.Ok? ==> Shaped(r.value) && r.value.xz == res.xz
    ensures r.Err? <==> NegativeLow(Columns(names, ranges))
  {
    var padded := PadAll(res.traces, names, res.maxClock);
    PaddedReady(res.traces, names, res.maxClock);
    r := Lay(names, ranges, padded, res.maxClock, res.xz);
  }

  /** Lines 90-169: resample every non-clock signal, then pad them and lay
      out the table. */
  method Tabulate(vcd: map<string, seq<Entry>>, names: seq<string>, ranges: map<string, seq<Range>>, t0: int, period: int)
    returns (r: Result<Output>)
    requires LegalRanges(ranges)
    ensures r == Tabulated(vcd, names, ranges, t0, period)
    ensures r.Ok? ==> Shaped(r.value)
    ensures ResampleNames(vcd, names, t0, period).Err? ==> r == Err(ResampleNames(vcd, names, t0, period).error)
    ensures ResampleNames(vcd, names, t0, period).Ok? ==>
      (r.Err? <==> NegativeLow(Columns(names, ranges))) &&
      (r.Ok? ==> r.value.xz == ResampleNames(vcd, names, t0, period).value.xz)
  {
    var resampled := ResampleAll(vcd, names, t0, period);
    if resampled.Err? {
      return Err(resampled.error);
    }
    ResampledKeys(vcd, names, t0, period);
    ResampledLengths(vcd, names, t0, period);
    r := PadAndLay(resampled.value, names, ranges);
  }

  /** The script from the signal list on, with the waveform already read and
      keyed by the names the list uses. */
  method Run(lines: seq<seq<Token>>, vcd: map<string, seq<Entry>>) returns (r: Result<Output>)
    ensures r == Converted(lines, vcd)
    ensures r.Ok? ==> Shaped(r.value)
  {
    ConvertedOutcome(lines, vcd);
    var parsed := ParseSignalList(lines);
    if parsed.Err? {
      return Err(parsed.error);
    }
    var targets := parsed.value;
    if targets.clock !in vcd {
      return Err(SignalNotFound(targets.clock));
    }
    var geometry := InferClock(vcd[targets.clock]);
    if geometry.Err? {
      return Err(geometry.error);
    }
    ParseListLegal(lines);
    r := Tabulate(vcd, targets.signals[1..], targets.ranges, geometry.value.firstEdge, geometry.value.period);
  }
}
