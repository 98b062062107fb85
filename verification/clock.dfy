/** Clock-period inference (vcd2csv/vcd2csv.py:75-88): the first clock entry
    reading 1 is the first rising edge, and the period is the time to the entry
    two places further on. */
module Clock {
  import opened Common
  import opened Numerals

  datatype Geometry = Geometry(firstEdge: int, period: int)

  /** Every entry before idx reads, as a decimal integer (line 80 applies
      `int()`, base 10), as something other than 1. */
  predicate LowBefore(clock: seq<Entry>, idx: int)
    requires 0 <= idx <= |clock|
  {
    forall j :: 0 <= j < idx ==> ParseInt(clock[j].bits).Some? && ParseInt(clock[j].bits) != Some(1)
  }

  /** Entry idx is the first rising edge: the first entry that reads 1. */
  predicate FirstEdge(clock: seq<Entry>, idx: int)
  {
    0 <= idx < |clock| && LowBefore(clock, idx) && ParseInt(clock[idx].bits) == Some(1)
  }

  /** Entry idx is the first entry that `int()` refuses, met before any edge. */
  predicate FirstUnreadable(clock: seq<Entry>, idx: int)
  {
    0 <= idx < |clock| && LowBefore(clock, idx) && ParseInt(clock[idx].bits).None?
  }

  lemma FirstEdgeUnique(clock: seq<Entry>, i: int, j: int)
    requires FirstEdge(clock, i) && FirstEdge(clock, j)
    ensures i == j
  {
  }

  /** The scan of lines 79-87 from entry idx on: the first entry reading 1
      gives the first edge and the period, an entry `int()` refuses stops the
      run, and so does an edge with no entry two places after it. */
  function ScanFrom(clock: seq<Entry>, idx: nat): Result<Geometry>
    decreases |clock| - idx
  {
    if idx >= |clock| then Err(NoRisingEdge)
    else match ParseInt(clock[idx].bits)
      case None => Err(BadClockValue)
      case Some(v) =>
        if v != 1 then ScanFrom(clock, idx + 1)
        else if idx + 2 >= |clock| then Err(ClockTooShort)
        else Ok(Geometry(clock[idx].time, clock[idx + 2].time - clock[idx].time))
  }

  /** The first rising edge and the period of a clock trace. */
  function ClockGeometry(clock: seq<Entry>): Result<Geometry>
  {
    ScanFrom(clock, 0)
  }

  /** What the scan from a point before any edge finds. */
  lemma {:induction false} ScanFromMeaning(clock: seq<Entry>, idx: nat)
    requires idx <= |clock| && LowBefore(clock, idx)
    ensures ScanFrom(clock, idx).Ok? <==> exists i :: FirstEdge(clock, i) && i + 2 < |clock|
    ensures ScanFrom(clock, idx).Ok? ==> exists i ::
      FirstEdge(clock, i) && i + 2 < |clock| && ScanFrom(clock, idx).value == Geometry(clock[i].time, clock[i + 2].time - clock[i].time)
    ensures ScanFrom(clock, idx) == Err(ClockTooShort) <==> exists i :: FirstEdge(clock, i) && i + 2 >= |clock|
    ensures ScanFrom(clock, idx) == Err(BadClockValue) <==> exists i :: FirstUnreadable(clock, i)
    ensures ScanFrom(clock, idx) == Err(NoRisingEdge) <==> LowBefore(clock, |clock|)
    ensures ScanFrom(clock, idx).Err? ==> ScanFrom(clock, idx).error in {ClockTooShort, BadClockValue, NoRisingEdge}
    decreases |clock| - idx
  {
    if idx < |clock| {
      var value := ParseInt(clock[idx].bits);
      if value.None? {
        assert FirstUnreadable(clock, idx);
      } else if value.value == 1 {
        assert FirstEdge(clock, idx);
      } else {
        assert LowBefore(clock, idx + 1);
        ScanFromMeaning(clock, idx + 1);
      }
    }
  }

  /** The clock's geometry is found exactly when the first entry reading 1
      has an entry two places after it, and it is then that entry's time and
      the time to that later entry; otherwise the scan stops with
      ClockTooShort, BadClockValue or NoRisingEdge, each exactly when its
      condition holds. */
  lemma GeometryMeaning(clock: seq<Entry>)
    ensures ClockGeometry(clock).Ok? <==> exists idx :: FirstEdge(clock, idx) && idx + 2 < |clock|
    ensures ClockGeometry(clock).Ok? ==> exists idx ::
      FirstEdge(clock, idx) && idx + 2 < |clock| && ClockGeometry(clock).value == Geometry(clock[idx].time, clock[idx + 2].time - clock[idx].time)
    ensures ClockGeometry(clock) == Err(ClockTooShort) <==> exists idx :: FirstEdge(clock, idx) && idx + 2 >= |clock|
    ensures ClockGeometry(clock) == Err(BadClockValue) <==> exists idx :: FirstUnreadable(clock, idx)
    ensures ClockGeometry(clock) == Err(NoRisingEdge) <==> LowBefore(clock, |clock|)
    ensures ClockGeometry(clock).Err? ==> ClockGeometry(clock).error in {ClockTooShort, BadClockValue, NoRisingEdge}
  {
    ScanFromMeaning(clock, 0);
  }

  /** A clock whose first rising edge is entry idx has its geometry read at
      that entry. */
  lemma GeometryAtEdge(clock: seq<Entry>, idx: nat)
    requires FirstEdge(clock, idx)
    ensures ClockGeometry(clock) ==
      if idx + 2 < |clock| then Ok(Geometry(clock[idx].time, clock[idx + 2].time - clock[idx].time)) else Err(ClockTooShort)
  {
    GeometryMeaning(clock);
    if ClockGeometry(clock).Ok? {
      var i :| FirstEdge(clock, i) && i + 2 < |clock| &&
        ClockGeometry(clock).value == Geometry(clock[i].time, clock[i + 2].time - clock[i].time);
      FirstEdgeUnique(clock, i, idx);
    }
  }

  /** The scan of lines 79-87. */
  method InferClock(clock: seq<Entry>) returns (r: Result<Geometry>)
    ensures r == ClockGeometry(clock)
  {
    var idx := 0;
    while idx < |clock|
      invariant 0 <= idx <= |clock| && ScanFrom(clock, idx) == ClockGeometry(clock)
    {
      var value := ParseInt(clock[idx].bits);
      if value.None? {
        return Err(BadClockValue);
      }
      if value.value == 1 {
        if idx + 2 >= |clock| {
          return Err(ClockTooShort);
        }
        return Ok(Geometry(clock[idx].time, clock[idx + 2].time - clock[idx].time));
      }
      idx := idx + 1;
    }
    return Err(NoRisingEdge);
  }

  /** The scan stops at the first rising edge, so the value of any later
      entry, even one `int()` refuses such as `x`, is never read. */
  lemma LaterValuesUnread(clock: seq<Entry>, idx: nat, k: nat, bits: string)
    requires FirstEdge(clock, idx) && idx < k < |clock|
    ensures ClockGeometry(clock[k := Entry(clock[k].time, bits)]) == ClockGeometry(clock)
  {
    var changed := clock[k := Entry(clock[k].time, bits)];
    assert forall j :: 0 <= j <= idx ==> changed[j] == clock[j];
    assert FirstEdge(changed, idx);
    GeometryAtEdge(clock, idx);
    GeometryAtEdge(changed, idx);
  }

  /** A clock low at 0, high at 5, low at 10, high at 15 and low at 20 has its
      first rising edge at 5 and a period of 10. */
  method InferClockExample() returns (g: Geometry)
    ensures g == Geometry(5, 10)
  {
    var clock := [Entry(0, "0"), Entry(5, "1"), Entry(10, "0"), Entry(15, "1"), Entry(20, "0")];
    assert ParseInt("0") == Some(0) && ParseInt("1") == Some(1);
    assert FirstEdge(clock, 1);
    var r := InferClock(clock);
    GeometryAtEdge(clock, 1);
    g := r.value;
  }
}
