/** The header and the rows of the output table (vcd2csv/vcd2csv.py:128-169):
    after `Cycle` and `Global_Distance`, each non-clock signal gives one pair
    of columns (value, local distance), or one pair per bit range asked for. */
module Table {
  import opened Common
  import opened Bits
  import opened Hamming
  import opened Numerals
  import opened SignalList

  /** A pair of columns: a whole signal, or one bit range of it. */
  datatype Column = Full(signal: string) | Ranged(signal: string, range: Range)

  // ---------------------------------------------------------------------------
  // Column layout.

  /** One column pair per range, in declaration order. */
  function RangedColumns(signal: string, rs: seq<Range>): (cols: seq<Column>)
    ensures |cols| == |rs|
  {
    if |rs| == 0 then [] else RangedColumns(signal, rs[..|rs| - 1]) + [Ranged(signal, rs[|rs| - 1])]
  }

  /** Column k of a ranged signal is its k-th range. */
  lemma {:induction false} RangedColumnsMeaning(signal: string, rs: seq<Range>)
    ensures forall k :: 0 <= k < |rs| ==> RangedColumns(signal, rs)[k] == Ranged(signal, rs[k])
  {
    if |rs| > 0 {
      RangedColumnsMeaning(signal, rs[..|rs| - 1]);
    }
  }

  /** The columns of one signal (lines 130-137 and 151-168 branch the same way). */
  function SignalColumns(signal: string, ranges: map<string, seq<Range>>): seq<Column>
  {
    if signal !in ranges then [Full(signal)] else RangedColumns(signal, ranges[signal])
  }

  /** The columns of the listed signals, in list order. */
  function Columns(names: seq<string>, ranges: map<string, seq<Range>>): seq<Column>
  {
    if |names| == 0 then []
    else Columns(names[..|names| - 1], ranges) + SignalColumns(names[|names| - 1], ranges)
  }

  lemma ColumnsStep(names: seq<string>, ranges: map<string, seq<Range>>, k: nat)
    requires k < |names|
    ensures Columns(names[..k + 1], ranges) == Columns(names[..k], ranges) + SignalColumns(names[k], ranges)
  {
    assert names[..k + 1][..k] == names[..k];
  }

  /** Every column belongs to a listed signal; a ranged column carries one of
      the ranges asked for that signal, and a signal with no ranges has a
      single whole-signal column. */
  lemma {:induction false} ColumnsOrigin(names: seq<string>, ranges: map<string, seq<Range>>)
    ensures forall c :: c in Columns(names, ranges) ==>
      && c.signal in names
      && (c.Full? ==> c.signal !in ranges)
      && (c.Ranged? ==> c.signal in ranges && c.range in ranges[c.signal])
  {
    if |names| > 0 {
      var init, last := names[..|names| - 1], names[|names| - 1];
      ColumnsOrigin(init, ranges);
      if last in ranges {
        RangedColumnsMeaning(last, ranges[last]);
      }
      forall c | c in Columns(names, ranges)
        ensures c.signal in names
        ensures c.Full? ==> c.signal !in ranges
        ensures c.Ranged? ==> c.signal in ranges && c.range in ranges[c.signal]
      {
        if c in Columns(init, ranges) {
          assert c.signal in init;
        } else if last in ranges {
          var k :| 0 <= k < |ranges[last]| && RangedColumns(last, ranges[last])[k] == c;
          assert ranges[last][k] == c.range;
        }
      }
    }
  }

  /** The columns of a prefix of the list are columns of the whole list. */
  lemma {:induction false} ColumnsOfPrefix(names: seq<string>, ranges: map<string, seq<Range>>, k: nat)
    requires k <= |names|
    ensures forall c :: c in Columns(names[..k], ranges) ==> c in Columns(names, ranges)
    decreases |names|
  {
    if k < |names| {
      var init := names[..|names| - 1];
      assert init[..k] == names[..k];
      ColumnsOfPrefix(init, ranges, k);
    } else {
      assert names[..k] == names;
    }
  }

  /** A ranged column's header name: `<signal>[H:L]` (line 135). */
  function ColumnName(c: Column): string
  {
    match c
      case Full(signal) => signal
      case Ranged(signal, r) => signal + RangeText(r.high, r.low)
  }

  /** The header cells of the given columns: name, then `d_` name, per column. */
  function HeaderCells(cols: seq<Column>): seq<string>
  {
    if |cols| == 0 then []
    else
      var c := cols[|cols| - 1];
      HeaderCells(cols[..|cols| - 1]) + [ColumnName(c), "d_" + ColumnName(c)]
  }

  function Header(names: seq<string>, ranges: map<string, seq<Range>>): seq<string>
  {
    ["Cycle", "Global_Distance"] + HeaderCells(Columns(names, ranges))
  }

  lemma HeaderCellsStep(cols: seq<Column>, c: Column)
    ensures HeaderCells(cols + [c]) == HeaderCells(cols) + [ColumnName(c), "d_" + ColumnName(c)]
  {
    assert (cols + [c])[..|cols|] == cols;
  }

  /** Indexing past a prefix. */
  lemma AfterPrefix<T>(front: seq<T>, rest: seq<T>, k: nat)
    requires k < |rest|
    ensures (front + rest)[|front| + k] == rest[k]
  {
  }

  /** Indexing a sequence extended by one pair. */
  lemma PairIndex<T>(before: seq<T>, a: T, b: T, j: nat)
    requires 2 * j + 1 < |before| + 2
    ensures 2 * j + 1 < |before| ==> (before + [a, b])[2 * j] == before[2 * j] && (before + [a, b])[2 * j + 1] == before[2 * j + 1]
    ensures 2 * j == |before| ==> (before + [a, b])[2 * j] == a && (before + [a, b])[2 * j + 1] == b
  {
  }

  /** Column j has its value named at 2j and its distance `d_`-named at 2j+1. */
  lemma {:induction false} HeaderLayout(cols: seq<Column>)
    ensures |HeaderCells(cols)| == 2 * |cols|
    ensures forall j :: 0 <= j < |cols| ==>
      HeaderCells(cols)[2 * j] == ColumnName(cols[j]) && HeaderCells(cols)[2 * j + 1] == "d_" + ColumnName(cols[j])
  {
    if |cols| > 0 {
      var init, last := cols[..|cols| - 1], cols[|cols| - 1];
      HeaderLayout(init);
      var before, cells := HeaderCells(init), HeaderCells(cols);
      var name := ColumnName(last);
      assert cells == before + [name, "d_" + name];
      forall j | 0 <= j < |cols|
        ensures cells[2 * j] == ColumnName(cols[j]) && cells[2 * j + 1] == "d_" + ColumnName(cols[j])
      {
        PairIndex(before, name, "d_" + name, j);
        if j < |init| {
          assert init[j] == cols[j];
        }
      }
    }
  }

  lemma {:induction false} HeaderCellsAppend(a: seq<Column>, b: seq<Column>)
    ensures HeaderCells(a + b) == HeaderCells(a) + HeaderCells(b)
    decreases |b|
  {
    if |b| > 0 {
      var init := b[..|b| - 1];
      assert (a + b)[..|a + b| - 1] == a + init;
      HeaderCellsAppend(a, init);
    } else {
      assert a + b == a;
    }
  }

  lemma RangeNamesStep(header: seq<string>, signal: string, rs: seq<Range>, j: nat)
    requires j < |rs|
    ensures header + HeaderCells(RangedColumns(signal, rs[..j + 1])) ==
      (header + HeaderCells(RangedColumns(signal, rs[..j]))) + HeaderCells([Ranged(signal, rs[j])])
  {
    assert rs[..j + 1][..j] == rs[..j];
    HeaderCellsAppend(RangedColumns(signal, rs[..j]), [Ranged(signal, rs[j])]);
  }

  /** The header cells of a single column: its name and its `d_` name. */
  lemma OneColumnNames(c: Column)
    ensures HeaderCells([c]) == [ColumnName(c), "d_" + ColumnName(c)]
  {
    HeaderCellsStep([], c);
    assert [] + [c] == [c];
  }

  /** Lines 134-137: a name pair per range of one signal, appended to the
      header built so far. */
  method AppendRangeNames(header: seq<string>, signal: string, rs: seq<Range>) returns (out: seq<string>)
    ensures out == header + HeaderCells(RangedColumns(signal, rs))
  {
    out := header;
    for j := 0 to |rs|
      invariant out == header + HeaderCells(RangedColumns(signal, rs[..j]))
    {
      var column := Ranged(signal, rs[j]);
      RangeNamesStep(header, signal, rs, j);
      OneColumnNames(column);
      var name := ColumnName(column);
      out := out + [name, "d_" + name];
    }
    assert rs[..|rs|] == rs;
  }

  /** Lines 130-137 for one signal: its name pair, or a pair per range. */
  method AppendSignalNames(header: seq<string>, signal: string, ranges: map<string, seq<Range>>) returns (out: seq<string>)
    ensures out == header + HeaderCells(SignalColumns(signal, ranges))
  {
    if signal !in ranges {
      assert HeaderCells([Full(signal)]) == HeaderCells([]) + [signal, "d_" + signal];
      out := header + [signal, "d_" + signal];
    } else {
      out := AppendRangeNames(header, signal, ranges[signal]);
    }
  }

  /** The header once the first k signals have had their names appended. */
  function HeaderUpTo(names: seq<string>, ranges: map<string, seq<Range>>, k: nat): seq<string>
    requires k <= |names|
  {
    ["Cycle", "Global_Distance"] + HeaderCells(Columns(names[..k], ranges))
  }

  lemma HeaderUpToStep(names: seq<string>, ranges: map<string, seq<Range>>, k: nat)
    requires k < |names|
    ensures HeaderUpTo(names, ranges, k + 1) == HeaderUpTo(names, ranges, k) + HeaderCells(SignalColumns(names[k], ranges))
  {
    ColumnsStep(names, ranges, k);
    HeaderCellsAppend(Columns(names[..k], ranges), SignalColumns(names[k], ranges));
  }

  /** Lines 128-137: append the two fixed names, then a pair per signal or
      per range. */
  method BuildHeader(names: seq<string>, ranges: map<string, seq<Range>>) returns (header: seq<string>)
    ensures header == Header(names, ranges)
  {
    header := ["Cycle", "Global_Distance"];
    assert names[..0] == [];
    for i := 0 to |names|
      invariant header == HeaderUpTo(names, ranges, i)
    {
      HeaderUpToStep(names, ranges, i);
      header := AppendSignalNames(header, names[i], ranges);
    }
    assert names[..|names|] == names;
  }

  /** A signal `foo` with ranges 3..0 and 7..7 gives the columns `foo[3:0]`,
      `d_foo[3:0]`, `foo[7:7]`, `d_foo[7:7]`, in that order. */
  lemma HeaderExample()
    ensures Header(["foo"], map["foo" := [Range(3, 0), Range(7, 7)]]) ==
      ["Cycle", "Global_Distance", "foo[3:0]", "d_foo[3:0]", "foo[7:7]", "d_foo[7:7]"]
  {
    var ranges := map["foo" := [Range(3, 0), Range(7, 7)]];
    var cols := [Ranged("foo", Range(3, 0)), Ranged("foo", Range(7, 7))];
    assert Columns(["foo"], ranges) == cols by {
      assert ["foo"][..0] == [];
    }
    assert ColumnName(cols[0]) == "foo[3:0]" && ColumnName(cols[1]) == "foo[7:7]" by {
      assert IntToString(3) == "3" && IntToString(0) == "0" && IntToString(7) == "7";
    }
    HeaderShape(["foo"], ranges);
    var header := Header(["foo"], ranges);
    assert header[2] == "foo[3:0]" && header[4] == "foo[7:7]";
    assert header[3] == "d_foo[3:0]" && header[5] == "d_foo[7:7]";
  }

  // ---------------------------------------------------------------------------
  // Row cells, as the script computes them: signal by signal, range by range.

  /** Every listed signal has a sample at cycle i. */
  predicate Sampled(names: seq<string>, traces: map<string, seq<nat>>, i: nat)
  {
    forall n :: n in names ==> n in traces && i < |traces[n]|
  }

  /** Every listed signal has a padded trace of max_clock+1 values (line 117). */
  predicate Ready(names: seq<string>, traces: map<string, seq<nat>>, maxClock: nat)
  {
    forall n :: n in names ==> n in traces && |traces[n]| == maxClock + 1
  }

  /** Cells already computed followed by the outcome of the next ones. */
  function Extend(prefix: seq<nat>, r: Result<seq<nat>>): Result<seq<nat>>
  {
    match r
      case Err(e) => Err(e)
      case Ok(cells) => Ok(prefix + cells)
  }

  lemma ExtendAssociative(prefix: seq<nat>, done: seq<nat>, r: Result<seq<nat>>)
    ensures Extend(prefix + done, r) == Extend(prefix, Extend(done, r))
  {
    if r.Ok? {
      assert (prefix + done) + r.value == prefix + (done + r.value);
    }
  }

  /** Lines 151-156: a whole signal's value at cycle i and its distance from
      the value at cycle i-1 (0 in the first row). */
  function FullPair(trace: seq<nat>, i: nat): seq<nat>
    requires i < |trace|
  {
    [trace[i], if i == 0 then 0 else Distance(trace[i - 1], trace[i])]
  }

  /** Lines 158-168: bits L..H of the value at cycle i and their distance
      from the same bits at cycle i-1; a negative L makes `>>` raise. */
  function RangePair(trace: seq<nat>, r: Range, i: nat): Result<seq<nat>>
    requires i < |trace| && r.low <= r.high
  {
    if r.low < 0 then Err(NegativeShift)
    else
      var now := Slice(trace[i], r.high, r.low);
      Ok([now, if i == 0 then 0 else Distance(Slice(trace[i - 1], r.high, r.low), now)])
  }

  /** Line 158: the pairs of every range of one signal, in order. */
  function RangesCells(trace: seq<nat>, rs: seq<Range>, i: nat): Result<seq<nat>>
    requires i < |trace| && forall k :: 0 <= k < |rs| ==> rs[k].low <= rs[k].high
  {
    if |rs| == 0 then Ok([])
    else
      match RangesCells(trace, rs[..|rs| - 1], i)
        case Err(e) => Err(e)
        case Ok(cells) => Extend(cells, RangePair(trace, rs[|rs| - 1], i))
  }

  /** Lines 151-168 for one signal. */
  function SignalCells(signal: string, ranges: map<string, seq<Range>>, traces: map<string, seq<nat>>, i: nat): Result<seq<nat>>
    requires signal in traces && i < |traces[signal]| && LegalRanges(ranges)
  {
    if signal !in ranges then Ok(FullPair(traces[signal], i))
    else RangesCells(traces[signal], ranges[signal], i)
  }

  /** Line 150: the cells of every listed signal, in list order. */
  function RowCells(names: seq<string>, ranges: map<string, seq<Range>>, traces: map<string, seq<nat>>, i: nat): Result<seq<nat>>
    requires Sampled(names, traces, i) && LegalRanges(ranges)
  {
    if |names| == 0 then Ok([])
    else
      match RowCells(names[..|names| - 1], ranges, traces, i)
        case Err(e) => Err(e)
        case Ok(cells) => Extend(cells, SignalCells(names[|names| - 1], ranges, traces, i))
  }

  /** The sum over the listed signals of the full-width distance between
      cycles i-1 and i (lines 144-148). */
  function SumDistances(names: seq<string>, traces: map<string, seq<nat>>, i: nat): nat
    requires i > 0 && Sampled(names, traces, i)
  {
    if |names| == 0 then 0
    else
      var n := names[|names| - 1];
      SumDistances(names[..|names| - 1], traces, i) + Distance(traces[n][i - 1], traces[n][i])
  }

  /** The global distance of cycle i: 0 at cycle 0 (line 142). */
  function GlobalDistance(names: seq<string>, traces: map<string, seq<nat>>, i: nat): nat
    requires Sampled(names, traces, i)
  {
    if i == 0 then 0 else SumDistances(names, traces, i)
  }

  /** Row i (lines 140-168): the cycle, the global distance, then the cells
      of every signal. */
  function Row(names: seq<string>, ranges: map<string, seq<Range>>, traces: map<string, seq<nat>>, i: nat): Result<seq<nat>>
    requires Sampled(names, traces, i) && LegalRanges(ranges)
  {
    Extend([i, GlobalDistance(names, traces, i)], RowCells(names, ranges, traces, i))
  }

  lemma ReadySampled(names: seq<string>, traces: map<string, seq<nat>>, maxClock: nat, i: nat)
    requires Ready(names, traces, maxClock) && i <= maxClock
    ensures Sampled(names, traces, i)
  {
  }

  /** Rows 0..count-1 (line 139), or the error of the first row that fails. */
  function Rows(names: seq<string>, ranges: map<string, seq<Range>>,
                traces: map<string, seq<nat>>, maxClock: nat, count: nat): Result<seq<seq<nat>>>
    requires Ready(names, traces, maxClock) && LegalRanges(ranges) && count <= maxClock + 1
  {
    if count == 0 then Ok([])
    else
      match Rows(names, ranges, traces, maxClock, count - 1)
        case Err(e) => Err(e)
        case Ok(rows) =>
          ReadySampled(names, traces, maxClock, count - 1);
          match Row(names, ranges, traces, count - 1)
            case Err(e) => Err(e)
            case Ok(row) => Ok(rows + [row])
  }

  /** Every row of the table. */
  function TableRows(names: seq<string>, ranges: map<string, seq<Range>>,
                     traces: map<string, seq<nat>>, maxClock: nat): Result<seq<seq<nat>>>
    requires Ready(names, traces, maxClock) && LegalRanges(ranges)
  {
    Rows(names, ranges, traces, maxClock, maxClock + 1)
  }

  // ---------------------------------------------------------------------------
  // Building the rows as the script does.

  /** Lines 144-148: the global distance, one signal at a time. */
  method SumHamming(names: seq<string>, traces: map<string, seq<nat>>, i: nat) returns (distance: nat)
    requires i > 0 && Sampled(names, traces, i)
    ensures distance == SumDistances(names, traces, i)
  {
    distance := 0;
    for k := 0 to |names|
      invariant distance == SumDistances(names[..k], traces, i)
    {
      var n := names[k];
      assert names[..k + 1][..k] == names[..k];
      var d := ComputeHamming(traces[n][i - 1], traces[n][i]);
      distance := distance + d;
    }
    assert names[..|names|] == names;
  }

  /** Lines 159-168 for one range: the masked value and its local distance. */
  method MaskedPair(trace: seq<nat>, r: Range, i: nat) returns (out: Result<seq<nat>>)
    requires i < |trace| && r.low <= r.high
    ensures out == RangePair(trace, r, i)
  {
    if r.low < 0 {
      return Err(NegativeShift);
    }
    var bitsInRange := 1 + r.high - r.low;
    var masked := BitAnd(ShiftRight(trace[i], r.low), Pow2(bitsInRange) - 1);
    if i == 0 {
      return Ok([masked, 0]);
    }
    var lastMasked := BitAnd(ShiftRight(trace[i - 1], r.low), Pow2(bitsInRange) - 1);
    var d := ComputeHamming(lastMasked, masked);
    out := Ok([masked, d]);
  }

  /** Once the cells of a prefix of the ranges fail, those of all ranges do. */
  lemma {:induction false} RangesCellsSticks(trace: seq<nat>, rs: seq<Range>, i: nat, k: nat)
    requires i < |trace| && forall j :: 0 <= j < |rs| ==> rs[j].low <= rs[j].high
    requires k <= |rs| && RangesCells(trace, rs[..k], i).Err?
    ensures RangesCells(trace, rs, i) == RangesCells(trace, rs[..k], i)
    decreases |rs|
  {
    if k < |rs| {
      var init := rs[..|rs| - 1];
      assert init[..k] == rs[..k];
      RangesCellsSticks(trace, init, i, k);
    } else {
      assert rs[..k] == rs;
    }
  }

  /** Lines 158-168: the cells of every range of one signal, appended to the
      row built so far; the first negative low bit stops the row. */
  method AppendRanges(line: seq<nat>, trace: seq<nat>, rs: seq<Range>, i: nat) returns (r: Result<seq<nat>>)
    requires i < |trace| && forall k :: 0 <= k < |rs| ==> rs[k].low <= rs[k].high
    ensures r == Extend(line, RangesCells(trace, rs, i))
  {
    var out := line;
    assert rs[..0] == [] && line + [] == line;
    for j := 0 to |rs|
      invariant Extend(line, RangesCells(trace, rs[..j], i)) == Ok(out)
    {
      assert rs[..j + 1][..j] == rs[..j];
      ExtendAssociative(line, RangesCells(trace, rs[..j], i).value, RangePair(trace, rs[j], i));
      var pair := MaskedPair(trace, rs[j], i);
      if pair.Err? {
        RangesCellsSticks(trace, rs, i, j + 1);
        return Err(pair.error);
      }
      out := out + pair.value;
    }
    assert rs[..|rs|] == rs;
    r := Ok(out);
  }

  /** Lines 150-168 for one signal: its value and distance, or those of each
      of its ranges. */
  method AppendSignal(line: seq<nat>, signal: string, ranges: map<string, seq<Range>>,
                      traces: map<string, seq<nat>>, i: nat) returns (r: Result<seq<nat>>)
    requires signal in traces && i < |traces[signal]| && LegalRanges(ranges)
    ensures r == Extend(line, SignalCells(signal, ranges, traces, i))
  {
    if signal !in ranges {
      var value := traces[signal][i];
      var d := 0;
      if i > 0 {
        d := ComputeHamming(traces[signal][i - 1], value);
      }
      return Ok(line + [value, d]);
    }
    r := AppendRanges(line, traces[signal], ranges[signal], i);
  }

  /** Once the cells of a prefix of the signals fail, those of all signals do. */
  lemma {:induction false} RowCellsSticks(names: seq<string>, ranges: map<string, seq<Range>>,
                                          traces: map<string, seq<nat>>, i: nat, k: nat)
    requires Sampled(names, traces, i) && LegalRanges(ranges)
    requires k <= |names| && RowCells(names[..k], ranges, traces, i).Err?
    ensures RowCells(names, ranges, traces, i) == RowCells(names[..k], ranges, traces, i)
    decreases |names|
  {
    if k < |names| {
      var init := names[..|names| - 1];
      assert init[..k] == names[..k];
      RowCellsSticks(init, ranges, traces, i, k);
    } else {
      assert names[..k] == names;
    }
  }

  /** Lines 140-168: one row, built cell by cell. */
  method BuildRow(names: seq<string>, ranges: map<string, seq<Range>>,
                  traces: map<string, seq<nat>>, i: nat) returns (r: Result<seq<nat>>)
    requires Sampled(names, traces, i) && LegalRanges(ranges)
    ensures r == Row(names, ranges, traces, i)
  {
    var global := 0;
    if i > 0 {
      global := SumHamming(names, traces, i);
    }
    var line := [i, global];
    assert names[..0] == [] && line + [] == line;
    for k := 0 to |names|
      invariant Extend([i, global], RowCells(names[..k], ranges, traces, i)) == Ok(line)
    {
      assert names[..k + 1][..k] == names[..k];
      ExtendAssociative([i, global], RowCells(names[..k], ranges, traces, i).value, SignalCells(names[k], ranges, traces, i));
      var next := AppendSignal(line, names[k], ranges, traces, i);
      if next.Err? {
        RowCellsSticks(names, ranges, traces, i, k + 1);
        return next;
      }
      line := next.value;
    }
    assert names[..|names|] == names;
    r := Ok(line);
  }

  /** Once a prefix of the rows fails, the table does. */
  lemma {:induction false} RowsSticks(names: seq<string>, ranges: map<string, seq<Range>>,
                                      traces: map<string, seq<nat>>, maxClock: nat, k: nat, count: nat)
    requires Ready(names, traces, maxClock) && LegalRanges(ranges) && k <= count <= maxClock + 1
    requires Rows(names, ranges, traces, maxClock, k).Err?
    ensures Rows(names, ranges, traces, maxClock, count) == Rows(names, ranges, traces, maxClock, k)
    decreases count
  {
    if k < count {
      RowsSticks(names, ranges, traces, maxClock, k, count - 1);
    }
  }

  /** Lines 139-169: every row, cycle 0 to max_clock. */
  method BuildTable(names: seq<string>, ranges: map<string, seq<Range>>,
                    traces: map<string, seq<nat>>, maxClock: nat) returns (r: Result<seq<seq<nat>>>)
    requires Ready(names, traces, maxClock) && LegalRanges(ranges)
    ensures r == TableRows(names, ranges, traces, maxClock)
  {
    var rows: seq<seq<nat>> := [];
    for i := 0 to maxClock + 1
      invariant Rows(names, ranges, traces, maxClock, i) == Ok(rows)
    {
      var row := BuildRow(names, ranges, traces, i);
      if row.Err? {
        RowsSticks(names, ranges, traces, maxClock, i + 1, maxClock + 1);
        return Err(row.error);
      }
      rows := rows + [row.value];
    }
    r := Ok(rows);
  }

  // ---------------------------------------------------------------------------
  // The rows seen column by column: each value sits under its header name.

  /** Some ranged column has a negative low bit: `v >> L` raises ValueError. */
  predicate NegativeLow(cols: seq<Column>)
  {
    exists c :: c in cols && c.Ranged? && c.range.low < 0
  }

  /** The value of a column at cycle i can be computed. */
  predicate Computable(c: Column, traces: map<string, seq<nat>>, i: nat)
  {
    && c.signal in traces && i < |traces[c.signal]|
    && (c.Ranged? ==> 0 <= c.range.low <= c.range.high)
  }

  /** The value of a column at cycle i: the sample, or its bits L..H. */
  function ColumnValue(c: Column, traces: map<string, seq<nat>>, i: nat): nat
    requires Computable(c, traces, i)
  {
    match c
      case Full(signal) => traces[signal][i]
      case Ranged(signal, r) => Slice(traces[signal][i], r.high, r.low)
  }

  /** The local distance of a column at cycle i: 0 at cycle 0, otherwise the
      Hamming distance of its values at cycles i-1 and i. */
  function LocalDistance(c: Column, traces: map<string, seq<nat>>, i: nat): nat
    requires Computable(c, traces, i)
  {
    if i == 0 then 0 else Distance(ColumnValue(c, traces, i - 1), ColumnValue(c, traces, i))
  }

  /** cells holds, for each column in turn, its value then its local distance. */
  predicate Laid(cells: seq<nat>, cols: seq<Column>, traces: map<string, seq<nat>>, i: nat)
  {
    && |cells| == 2 * |cols|
    && forall j :: 0 <= j < |cols| ==>
         && Computable(cols[j], traces, i)
         && cells[2 * j] == ColumnValue(cols[j], traces, i)
         && cells[2 * j + 1] == LocalDistance(cols[j], traces, i)
  }

  lemma NegativeLowAppend(a: seq<Column>, b: seq<Column>)
    ensures NegativeLow(a + b) <==> NegativeLow(a) || NegativeLow(b)
  {
    if NegativeLow(a + b) {
      var c :| c in a + b && c.Ranged? && c.range.low < 0;
      assert c in a || c in b;
    }
    if NegativeLow(a) {
      var c :| c in a && c.Ranged? && c.range.low < 0;
      assert c in a + b;
    }
    if NegativeLow(b) {
      var c :| c in b && c.Ranged? && c.range.low < 0;
      assert c in a + b;
    }
  }

  lemma LaidAppend(a: seq<nat>, ca: seq<Column>, b: seq<nat>, cb: seq<Column>, traces: map<string, seq<nat>>, i: nat)
    requires Laid(a, ca, traces, i) && Laid(b, cb, traces, i)
    ensures Laid(a + b, ca + cb, traces, i)
  {
    forall j | 0 <= j < |ca + cb|
      ensures Computable((ca + cb)[j], traces, i)
      ensures (a + b)[2 * j] == ColumnValue((ca + cb)[j], traces, i)
      ensures (a + b)[2 * j + 1] == LocalDistance((ca + cb)[j], traces, i)
    {
      if j < |ca| {
        assert (ca + cb)[j] == ca[j];
        assert (a + b)[2 * j] == a[2 * j] && (a + b)[2 * j + 1] == a[2 * j + 1];
      } else {
        var m := j - |ca|;
        assert (ca + cb)[j] == cb[m];
        assert (a + b)[2 * j] == b[2 * m] && (a + b)[2 * j + 1] == b[2 * m + 1];
      }
    }
  }

  /** The cells of the ranges of one signal are those of its ranged columns;
      they fail, with the ValueError of `>>`, exactly when a low bit is negative. */
  lemma {:induction false} RangesLaid(signal: string, rs: seq<Range>, traces: map<string, seq<nat>>, i: nat)
    requires signal in traces && i < |traces[signal]|
    requires forall k :: 0 <= k < |rs| ==> rs[k].low <= rs[k].high
    ensures RangesCells(traces[signal], rs, i).Err? <==> NegativeLow(RangedColumns(signal, rs))
    ensures RangesCells(traces[signal], rs, i).Err? ==> RangesCells(traces[signal], rs, i).error == NegativeShift
    ensures RangesCells(traces[signal], rs, i).Ok? ==> Laid(RangesCells(traces[signal], rs, i).value, RangedColumns(signal, rs), traces, i)
  {
    if |rs| == 0 {
      assert RangedColumns(signal, rs) == [];
    } else {
      var init := rs[..|rs| - 1];
      var c := Ranged(signal, rs[|rs| - 1]);
      RangesLaid(signal, init, traces, i);
      NegativeLowAppend(RangedColumns(signal, init), [c]);
      assert NegativeLow([c]) <==> c.range.low < 0 by {
        assert c in [c];
      }
      var pair := RangePair(traces[signal], c.range, i);
      var prefix := RangesCells(traces[signal], init, i);
      if prefix.Ok? && pair.Ok? {
        assert Laid(pair.value, [c], traces, i);
        LaidAppend(prefix.value, RangedColumns(signal, init), pair.value, [c], traces, i);
      }
    }
  }

  /** One signal's cells are those of its columns (lines 130-137 and 150-168
      branch on the same test). */
  lemma SignalLaid(signal: string, ranges: map<string, seq<Range>>, traces: map<string, seq<nat>>, i: nat)
    requires signal in traces && i < |traces[signal]| && LegalRanges(ranges)
    ensures SignalCells(signal, ranges, traces, i).Err? <==> NegativeLow(SignalColumns(signal, ranges))
    ensures SignalCells(signal, ranges, traces, i).Err? ==> SignalCells(signal, ranges, traces, i).error == NegativeShift
    ensures SignalCells(signal, ranges, traces, i).Ok? ==> Laid(SignalCells(signal, ranges, traces, i).value, SignalColumns(signal, ranges), traces, i)
  {
    if signal in ranges {
      RangesLaid(signal, ranges[signal], traces, i);
    } else {
      assert Laid(FullPair(traces[signal], i), [Full(signal)], traces, i);
    }
  }

  lemma {:induction false} RowCellsLaid(names: seq<string>, ranges: map<string, seq<Range>>, traces: map<string, seq<nat>>, i: nat)
    requires Sampled(names, traces, i) && LegalRanges(ranges)
    ensures RowCells(names, ranges, traces, i).Err? <==> NegativeLow(Columns(names, ranges))
    ensures RowCells(names, ranges, traces, i).Err? ==> RowCells(names, ranges, traces, i).error == NegativeShift
    ensures RowCells(names, ranges, traces, i).Ok? ==> Laid(RowCells(names, ranges, traces, i).value, Columns(names, ranges), traces, i)
  {
    if |names| == 0 {
      assert Columns(names, ranges) == [];
    } else {
      var init, last := names[..|names| - 1], names[|names| - 1];
      RowCellsLaid(init, ranges, traces, i);
      SignalLaid(last, ranges, traces, i);
      NegativeLowAppend(Columns(init, ranges), SignalColumns(last, ranges));
      var prefix := RowCells(init, ranges, traces, i);
      var cells := SignalCells(last, ranges, traces, i);
      if prefix.Ok? && cells.Ok? {
        LaidAppend(prefix.value, Columns(init, ranges), cells.value, SignalColumns(last, ranges), traces, i);
      }
    }
  }

  /** The header is `Cycle`, `Global_Distance`, then for each column its
      name and its `d_` name. */
  lemma HeaderShape(names: seq<string>, ranges: map<string, seq<Range>>)
    ensures |Header(names, ranges)| == 2 + 2 * |Columns(names, ranges)|
    ensures Header(names, ranges)[0] == "Cycle" && Header(names, ranges)[1] == "Global_Distance"
    ensures forall j :: 0 <= j < |Columns(names, ranges)| ==>
      && Header(names, ranges)[2 + 2 * j] == ColumnName(Columns(names, ranges)[j])
      && Header(names, ranges)[3 + 2 * j] == "d_" + ColumnName(Columns(names, ranges)[j])
  {
    var cols := Columns(names, ranges);
    var front, cells := ["Cycle", "Global_Distance"], HeaderCells(cols);
    var header := Header(names, ranges);
    assert header == front + cells;
    HeaderLayout(cols);
    forall j | 0 <= j < |cols|
      ensures header[2 + 2 * j] == ColumnName(cols[j])
      ensures header[3 + 2 * j] == "d_" + ColumnName(cols[j])
    {
      AfterPrefix(front, cells, 2 * j);
      AfterPrefix(front, cells, 2 * j + 1);
    }
  }

  /** Row i lines up with the header: the cycle, the global distance, then,
      at the places where the header names each column, that column's value
      and its local distance. The row fails, with the ValueError of `>>`,
      exactly when some range has a negative low bit. */
  lemma RowLayout(names: seq<string>, ranges: map<string, seq<Range>>, traces: map<string, seq<nat>>, i: nat)
    requires Sampled(names, traces, i) && LegalRanges(ranges)
    ensures Row(names, ranges, traces, i).Err? <==> NegativeLow(Columns(names, ranges))
    ensures Row(names, ranges, traces, i).Err? ==> Row(names, ranges, traces, i).error == NegativeShift
    ensures Row(names, ranges, traces, i).Ok? ==>
      && |Row(names, ranges, traces, i).value| == 2 + 2 * |Columns(names, ranges)|
      && Row(names, ranges, traces, i).value[0] == i
      && Row(names, ranges, traces, i).value[1] == GlobalDistance(names, traces, i)
      && Laid(Row(names, ranges, traces, i).value[2..], Columns(names, ranges), traces, i)
  {
    RowCellsLaid(names, ranges, traces, i);
    var cells := RowCells(names, ranges, traces, i);
    if cells.Ok? {
      assert Row(names, ranges, traces, i).value[2..] == cells.value;
    }
  }

  /** Every row is exactly as wide as the header. */
  lemma RowWidth(names: seq<string>, ranges: map<string, seq<Range>>, traces: map<string, seq<nat>>, i: nat)
    requires Sampled(names, traces, i) && LegalRanges(ranges)
    requires Row(names, ranges, traces, i).Ok?
    ensures |Row(names, ranges, traces, i).value| == |Header(names, ranges)|
  {
    RowLayout(names, ranges, traces, i);
    HeaderShape(names, ranges);
  }

  /** Row 0 has a global distance of 0 and every local distance 0 (lines
      141-142, 153-154, 163-164): every odd position holds 0. */
  lemma FirstRowZero(names: seq<string>, ranges: map<string, seq<Range>>, traces: map<string, seq<nat>>)
    requires Sampled(names, traces, 0) && LegalRanges(ranges)
    requires Row(names, ranges, traces, 0).Ok?
    ensures forall p :: 0 <= p < |Row(names, ranges, traces, 0).value| && p % 2 == 1 ==> Row(names, ranges, traces, 0).value[p] == 0
  {
    RowLayout(names, ranges, traces, 0);
    var row := Row(names, ranges, traces, 0).value;
    var cols := Columns(names, ranges);
    forall p | 0 <= p < |row| && p % 2 == 1
      ensures row[p] == 0
    {
      if p > 1 {
        var j := (p - 3) / 2;
        assert p == 3 + 2 * j && 0 <= j < |cols|;
        assert row[p] == row[2..][2 * j + 1] == LocalDistance(cols[j], traces, 0);
      }
    }
  }

  /** A ranged column's value fits in H-L+1 bits and its local distance is at
      most H-L+1; a whole signal's local distance is 0 exactly when its value
      did not change. */
  lemma ColumnBounds(c: Column, traces: map<string, seq<nat>>, i: nat)
    requires Computable(c, traces, i)
    ensures c.Ranged? ==> ColumnValue(c, traces, i) < Pow2(c.range.high - c.range.low + 1)
    ensures c.Ranged? ==> LocalDistance(c, traces, i) <= c.range.high - c.range.low + 1
    ensures i > 0 ==> (LocalDistance(c, traces, i) == 0 <==> ColumnValue(c, traces, i - 1) == ColumnValue(c, traces, i))
  {
    if c.Ranged? {
      SliceIsMod(traces[c.signal][i], c.range.high, c.range.low);
      if i > 0 {
        SliceDistance(traces[c.signal][i - 1], traces[c.signal][i], c.range.high, c.range.low);
      }
    }
    if i > 0 {
      DistanceZeroIff(ColumnValue(c, traces, i - 1), ColumnValue(c, traces, i));
    }
  }

  /** The global distance of a cycle after the first is 0 exactly when no
      listed signal changed value. */
  lemma {:induction false} GlobalDistanceZeroIff(names: seq<string>, traces: map<string, seq<nat>>, i: nat)
    requires i > 0 && Sampled(names, traces, i)
    ensures GlobalDistance(names, traces, i) == 0 <==> forall n :: n in names ==> traces[n][i - 1] == traces[n][i]
  {
    if |names| > 0 {
      var init, last := names[..|names| - 1], names[|names| - 1];
      GlobalDistanceZeroIff(init, traces, i);
      DistanceZeroIff(traces[last][i - 1], traces[last][i]);
      assert forall n :: n in names <==> n in init || n == last;
    }
  }

  /** The sum of the distance cells of a row's cell list. */
  function PairDistances(cells: seq<nat>): nat
  {
    if |cells| < 2 then 0 else PairDistances(cells[..|cells| - 2]) + cells[|cells| - 1]
  }

  /** With no bit ranges asked for, the global distance is the sum of the
      local distances of the row (lines 144-148 against 153-156). */
  lemma {:induction false} GlobalIsSumOfLocals(names: seq<string>, ranges: map<string, seq<Range>>, traces: map<string, seq<nat>>, i: nat)
    requires Sampled(names, traces, i) && LegalRanges(ranges)
    requires forall n :: n in names ==> n !in ranges
    ensures RowCells(names, ranges, traces, i).Ok?
    ensures GlobalDistance(names, traces, i) == PairDistances(RowCells(names, ranges, traces, i).value)
  {
    if |names| > 0 {
      var init, last := names[..|names| - 1], names[|names| - 1];
      GlobalIsSumOfLocals(init, ranges, traces, i);
      var prefix := RowCells(init, ranges, traces, i).value;
      var pair := FullPair(traces[last], i);
      assert (prefix + pair)[..|prefix + pair| - 2] == prefix;
    }
  }

  /** A row of a single signal holds that signal's cells, and its global
      distance is that signal's full-width distance. */
  lemma SingleSignalRow(name: string, ranges: map<string, seq<Range>>, traces: map<string, seq<nat>>, i: nat)
    requires 0 < i && Sampled([name], traces, i) && LegalRanges(ranges)
    ensures RowCells([name], ranges, traces, i) == SignalCells(name, ranges, traces, i)
    ensures GlobalDistance([name], traces, i) == Distance(traces[name][i - 1], traces[name][i])
  {
    var names := [name];
    assert names[..0] == [];
    assert RowCells(names[..0], ranges, traces, i) == Ok([]);
    assert SumDistances(names[..0], traces, i) == 0;
    var cells := SignalCells(name, ranges, traces, i);
    assert RowCells(names, ranges, traces, i) == Extend([], cells);
    if cells.Ok? {
      assert [] + cells.value == cells.value;
    }
  }

  /** The cells of a single range are its pair. */
  lemma SingleRangeCells(trace: seq<nat>, r: Range, i: nat)
    requires i < |trace| && r.low <= r.high
    ensures RangesCells(trace, [r], i) == RangePair(trace, r, i)
  {
    assert [r][..0] == [];
    var pair := RangePair(trace, r, i);
    if pair.Ok? {
      assert [] + pair.value == pair.value;
    }
  }

  /** The range 0..0 of a value is its lowest bit. */
  lemma LowBitSlice(v: nat)
    ensures Slice(v, 0, 0) == v % 2
  {
    assert Pow2(0) == 1 && Pow2(1) == 2;
    SliceIsMod(v, 0, 0);
    assert v / 1 == v;
  }

  /** With bit ranges asked for, the two can differ: a signal whose value
      changes while keeping its bit 0 (from 0 to 2, say) has a non-zero
      global distance, while the local distance of its one column, the
      range 0..0, is 0. */
  lemma GlobalDiffersWithRanges(name: string, x: nat, y: nat)
    requires x != y && x % 2 == y % 2
    ensures var traces := map[name := [x, y]];
      var ranges := map[name := [Range(0, 0)]];
      && GlobalDistance([name], traces, 1) > 0
      && RowCells([name], ranges, traces, 1) == Ok([y % 2, 0])
      && PairDistances(RowCells([name], ranges, traces, 1).value) == 0
  {
    var traces := map[name := [x, y]];
    var ranges := map[name := [Range(0, 0)]];
    var trace := traces[name];
    assert trace == [x, y];
    SingleSignalRow(name, ranges, traces, 1);
    DistanceZeroIff(x, y);
    assert GlobalDistance([name], traces, 1) > 0;
    SingleRangeCells(trace, Range(0, 0), 1);
    assert SignalCells(name, ranges, traces, 1) == RangePair(trace, Range(0, 0), 1);
    LowBitSlice(x);
    LowBitSlice(y);
    DistanceZeroIff(x % 2, y % 2);
    assert RangePair(trace, Range(0, 0), 1) == Ok([y % 2, 0]);
    assert PairDistances([y % 2, 0]) == 0 by {
      assert [y % 2, 0][..0] == [];
    }
  }

  /** The table: one row per cycle 0..max_clock, each the row of that cycle,
      or the ValueError of a negative low bit, which the first row meets. */
  lemma {:induction false} RowsOutcome(names: seq<string>, ranges: map<string, seq<Range>>,
                                       traces: map<string, seq<nat>>, maxClock: nat, count: nat)
    requires Ready(names, traces, maxClock) && LegalRanges(ranges) && count <= maxClock + 1
    ensures Rows(names, ranges, traces, maxClock, count).Err? <==> count > 0 && NegativeLow(Columns(names, ranges))
    ensures Rows(names, ranges, traces, maxClock, count).Err? ==> Rows(names, ranges, traces, maxClock, count).error == NegativeShift
    ensures Rows(names, ranges, traces, maxClock, count).Ok? ==>
      && |Rows(names, ranges, traces, maxClock, count).value| == count
      && forall i :: 0 <= i < count ==> Row(names, ranges, traces, i) == Ok(Rows(names, ranges, traces, maxClock, count).value[i])
  {
    if count > 0 {
      RowsOutcome(names, ranges, traces, maxClock, count - 1);
      RowLayout(names, ranges, traces, count - 1);
    }
  }

  lemma TableOutcome(names: seq<string>, ranges: map<string, seq<Range>>, traces: map<string, seq<nat>>, maxClock: nat)
    requires Ready(names, traces, maxClock) && LegalRanges(ranges)
    ensures TableRows(names, ranges, traces, maxClock).Err? <==> NegativeLow(Columns(names, ranges))
    ensures TableRows(names, ranges, traces, maxClock).Err? ==> TableRows(names, ranges, traces, maxClock).error == NegativeShift
    ensures TableRows(names, ranges, traces, maxClock).Ok? ==>
      && |TableRows(names, ranges, traces, maxClock).value| == maxClock + 1
      && forall i :: 0 <= i <= maxClock ==> Row(names, ranges, traces, i) == Ok(TableRows(names, ranges, traces, maxClock).value[i])
  {
    RowsOutcome(names, ranges, traces, maxClock, maxClock + 1);
  }
}
