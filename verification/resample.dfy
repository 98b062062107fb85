/** The cycle resampler (vcd2csv/vcd2csv.py:90-118): every non-clock signal's
    event trace becomes one decoded value per clock cycle, sampled at the first
    rising edge and every period after it, then all traces are padded to the
    same number of cycles. */
module Resample {
  import opened Common
  import opened Bits
  import opened Numerals

  function Max(a: int, b: int): int
  {
    if a < b then b else a
  }

  /** Raising a running maximum to the next count when it exceeds it keeps
      the maximum of the start value and the count. */
  lemma MaxStep(start: int, count: int, max: int, raised: int)
    requires max == Max(start, count)
    requires raised == if count + 1 > max then count + 1 else max
    ensures raised == Max(start, count + 1)
  {
  }

  // ---------------------------------------------------------------------------
  // Decoding one bit string (lines 102-107).

  /** x (unknown) and z (high impedance) carry no defined level. */
  predicate Indeterminate(c: char)
  {
    c == 'x' || c == 'z'
  }

  /** The bit string with every x and z replaced by 0. */
  function Scrub(s: string): (t: string)
    ensures |t| == |s|
  {
    seq(|s|, i requires 0 <= i < |s| => if Indeterminate(s[i]) then '0' else s[i])
  }

  /** The number of x and z characters of s, counted from the left. */
  function CountIndeterminate(s: string): nat
  {
    if |s| == 0 then 0
    else CountIndeterminate(s[..|s| - 1]) + (if Indeterminate(s[|s| - 1]) then 1 else 0)
  }

  /** The count of replaced characters is the number of x plus the number of z. */
  lemma {:induction false} CountIndeterminateIsOccurrences(s: string)
    ensures CountIndeterminate(s) == multiset(s)['x'] + multiset(s)['z']
  {
    if |s| > 0 {
      var init := s[..|s| - 1];
      CountIndeterminateIsOccurrences(init);
      assert s == init + [s[|s| - 1]];
      assert multiset(s) == multiset(init) + multiset{s[|s| - 1]};
    }
  }

  /** The loop of lines 103-106 on the bytearray: rewrite each x or z to 0 in
      place and count the rewrites. */
  method ScrubInPlace(a: array<char>) returns (replaced: nat)
    modifies a
    ensures a[..] == Scrub(old(a[..]))
    ensures replaced == CountIndeterminate(old(a[..]))
  {
    ghost var original := a[..];
    replaced := 0;
    for i := 0 to a.Length
      invariant forall k :: 0 <= k < i ==> a[k] == Scrub(original)[k]
      invariant forall k :: i <= k < a.Length ==> a[k] == original[k]
      invariant replaced == CountIndeterminate(original[..i])
    {
      assert original[..i + 1][..i] == original[..i];
      if a[i] == 'x' || a[i] == 'z' {
        a[i] := '0';
        replaced := replaced + 1;
      }
    }
    assert original[..a.Length] == original;
  }

  /** `int(scrubbed, 2)`: the value of a bit string with x and z read as 0. */
  function Decode(s: string): Option<nat>
  {
    ParseBinary(Scrub(s))
  }

  /** A bit string decodes when it is non-empty and made of 0, 1, x and z;
      its value is below 2^len, and bit i of the value is 1 exactly when the
      i-th character from the right is 1 (so x and z read as 0). */
  lemma {:induction false} DecodeMeaning(s: string)
    ensures Decode(s).Some? <==>
      |s| > 0 && forall i :: 0 <= i < |s| ==> IsBinaryDigit(s[i]) || Indeterminate(s[i])
    ensures Decode(s).Some? ==> Decode(s).value < Pow2(|s|)
    ensures Decode(s).Some? ==> forall i :: 0 <= i < |s| ==>
      Bit(Decode(s).value, i) == (if s[|s| - 1 - i] == '1' then 1 else 0)
  {
    var t := Scrub(s);
    ParseBinaryMeaning(t);
    assert forall i :: 0 <= i < |s| ==> (IsBinaryDigit(t[i]) <==> IsBinaryDigit(s[i]) || Indeterminate(s[i]));
    if Decode(s).Some? {
      forall i | 0 <= i < |s|
        ensures Bit(Decode(s).value, i) == (if s[|s| - 1 - i] == '1' then 1 else 0)
      {
        BitOfBinary(t, i);
      }
    }
  }

  /** Lines 102-107: copy the string into a bytearray, scrub it in place,
      then read it in base 2. */
  method DecodeEntry(bits: string) returns (value: Option<nat>, replaced: nat)
    ensures value == Decode(bits)
    ensures replaced == CountIndeterminate(bits)
  {
    var a := new char[|bits|](i requires 0 <= i < |bits| => bits[i]);
    assert a[..] == bits;
    replaced := ScrubInPlace(a);
    value := ParseBinary(a[..]);
  }

  // ---------------------------------------------------------------------------
  // The entry in effect at a sampling instant (lines 99-101).

  function CursorFrom(data: seq<Entry>, t: int, j: nat): (c: nat)
    requires j < |data|
    ensures j <= c < |data|
    decreases |data| - j
  {
    if j + 1 < |data| && data[j + 1].time <= t then CursorFrom(data, t, j + 1) else j
  }

  lemma {:induction false} CursorFromMeaning(data: seq<Entry>, t: int, j: nat)
    requires j < |data|
    requires forall m :: 1 <= m <= j ==> data[m].time <= t
    ensures forall m :: 1 <= m <= CursorFrom(data, t, j) ==> data[m].time <= t
    ensures CursorFrom(data, t, j) == |data| - 1 || data[CursorFrom(data, t, j) + 1].time > t
    decreases |data| - j
  {
    if j + 1 < |data| && data[j + 1].time <= t {
      CursorFromMeaning(data, t, j + 1);
    }
  }

  /** The cursor for instant t: the index of the entry in effect at t, found
      by skipping entries while the next one changes at or before t. Entry 0
      is the value before any change. */
  function CursorAt(data: seq<Entry>, t: int): (j: nat)
    requires |data| > 0
    ensures j < |data|
  {
    CursorFrom(data, t, 0)
  }

  /** The cursor is the largest index j such that the changes 1..j all
      happened at or before t. */
  lemma CursorAtMeaning(data: seq<Entry>, t: int)
    requires |data| > 0
    ensures forall m :: 1 <= m <= CursorAt(data, t) ==> data[m].time <= t
    ensures CursorAt(data, t) == |data| - 1 || data[CursorAt(data, t) + 1].time > t
  {
    CursorFromMeaning(data, t, 0);
  }

  /** The two properties of CursorAt determine it. */
  lemma CursorUnique(data: seq<Entry>, t: int, j: nat)
    requires j < |data|
    requires forall m :: 1 <= m <= j ==> data[m].time <= t
    requires j == |data| - 1 || data[j + 1].time > t
    ensures j == CursorAt(data, t)
  {
    CursorAtMeaning(data, t);
  }

  /** A later instant never moves the cursor back. */
  lemma CursorMonotone(data: seq<Entry>, t1: int, t2: int)
    requires |data| > 0 && t1 <= t2
    ensures CursorAt(data, t1) <= CursorAt(data, t2)
  {
    CursorAtMeaning(data, t1);
    CursorAtMeaning(data, t2);
  }

  predicate Chronological(data: seq<Entry>)
  {
    forall i, j :: 0 <= i < j < |data| ==> data[i].time <= data[j].time
  }

  /** For a chronological trace the cursor is the last entry at or before t,
      or entry 0 when no entry is. */
  lemma CursorIsLastBefore(data: seq<Entry>, t: int)
    requires |data| > 0 && Chronological(data)
    ensures forall m :: CursorAt(data, t) < m < |data| ==> data[m].time > t
    ensures CursorAt(data, t) > 0 ==> data[CursorAt(data, t)].time <= t
  {
    CursorAtMeaning(data, t);
  }

  /** The time of the last change: the latest timestamp after entry 0. */
  function LastChange(data: seq<Entry>): int
    requires |data| >= 2
  {
    if |data| == 2 then data[1].time
    else Max(LastChange(data[..|data| - 1]), data[|data| - 1].time)
  }

  /** LastChange is the maximum of the timestamps after entry 0. */
  lemma {:induction false} LastChangeIsLatest(data: seq<Entry>)
    requires |data| >= 2
    ensures forall m :: 1 <= m < |data| ==> data[m].time <= LastChange(data)
    ensures exists m :: 1 <= m < |data| && data[m].time == LastChange(data)
  {
    if |data| > 2 {
      var init := data[..|data| - 1];
      LastChangeIsLatest(init);
      assert forall m :: 1 <= m < |init| ==> init[m] == data[m];
      if LastChange(data) != data[|data| - 1].time {
        var m :| 1 <= m < |init| && init[m].time == LastChange(init);
        assert data[m].time == LastChange(data);
      }
    } else {
      assert data[1].time == LastChange(data);
    }
  }

  /** The cursor reaches the final entry exactly when every change has happened. */
  lemma SettledIff(data: seq<Entry>, t: int)
    requires |data| >= 2
    ensures CursorAt(data, t) == |data| - 1 <==> LastChange(data) <= t
  {
    CursorAtMeaning(data, t);
    LastChangeIsLatest(data);
  }

  // ---------------------------------------------------------------------------
  // How many cycles a signal lasts.

  lemma MulMonotone(a: int, b: int, p: int)
    requires a <= b && p >= 0
    ensures a * p <= b * p
  {
    var d := b - a;
    assert d * p >= 0;
    assert b * p == a * p + d * p;
  }

  /** k periods reach a positive distance d exactly when k is at least d/p
      rounded up. */
  lemma CeilingDivision(d: int, p: int, k: nat)
    requires d > 0 && p > 0
    ensures k * p >= d <==> k >= (d + p - 1) / p
  {
    var c := (d + p - 1) / p;
    var rem := (d + p - 1) % p;
    assert d + p - 1 == c * p + rem;
    assert c * p >= d;
    assert (c - 1) * p < d;
    if k >= c {
      MulMonotone(c, k, p);
    } else {
      MulMonotone(k, c - 1, p);
    }
  }

  /** The sampling instant of cycle k: the first rising edge, then one period
      later for each cycle (line 112). */
  function Instant(t0: int, period: int, k: nat): int
  {
    if k == 0 then t0 else Instant(t0, period, k - 1) + period
  }

  lemma {:induction false} InstantIsLinear(t0: int, period: int, k: nat)
    ensures Instant(t0, period, k) == t0 + k * period
  {
    if k > 0 {
      InstantIsLinear(t0, period, k - 1);
    }
  }

  /** The first cycle from k on whose instant is at or after the last change. */
  function SettleFrom(data: seq<Entry>, t0: int, period: int, k: nat): nat
    requires |data| >= 2 && period > 0
    decreases Max(0, LastChange(data) - Instant(t0, period, k))
  {
    if LastChange(data) <= Instant(t0, period, k) then k
    else SettleFrom(data, t0, period, k + 1)
  }

  /** The index of the last cycle: the first k whose instant t0 + k*period is
      at or after the last change (0 when that change is at or before t0). */
  function CycleCount(data: seq<Entry>, t0: int, period: int): nat
    requires |data| >= 2
    requires period > 0 || LastChange(data) <= t0
  {
    if LastChange(data) <= t0 then 0 else SettleFrom(data, t0, period, 0)
  }

  /** SettleFrom(k) is the first cycle from k on that is at or after the last
      change. */
  lemma {:induction false} SettleFromIsFirst(data: seq<Entry>, t0: int, period: int, k: nat, j: nat)
    requires |data| >= 2 && period > 0 && k <= j
    ensures var r := SettleFrom(data, t0, period, k);
      k <= r && (LastChange(data) <= Instant(t0, period, j) <==> r <= j)
    decreases Max(0, LastChange(data) - Instant(t0, period, k))
  {
    if LastChange(data) <= Instant(t0, period, k) {
      InstantMonotone(t0, period, k, j);
    } else {
      SettleFromIsFirst(data, t0, period, k + 1, Max(j, k + 1));
    }
  }

  lemma {:induction false} InstantMonotone(t0: int, period: int, k: nat, j: nat)
    requires period >= 0 && k <= j
    ensures Instant(t0, period, k) <= Instant(t0, period, j)
    decreases j
  {
    if k < j {
      InstantMonotone(t0, period, k, j - 1);
    }
  }

  /** The number of cycles after the first is the time from the first rising
      edge to the last change in periods, rounded up. */
  lemma {:induction false} CycleCountFormula(data: seq<Entry>, t0: int, period: int)
    requires |data| >= 2 && period > 0
    ensures CycleCount(data, t0, period) ==
      if LastChange(data) <= t0 then 0 else (LastChange(data) - t0 + period - 1) / period
  {
    if LastChange(data) > t0 {
      var c := CycleCount(data, t0, period);
      var d := LastChange(data) - t0;
      var q := (d + period - 1) / period;
      SettleFromIsFirst(data, t0, period, 0, c);
      InstantIsLinear(t0, period, c);
      CeilingDivision(d, period, c);
      assert c >= q;
      if c > q {
        SettleFromIsFirst(data, t0, period, 0, c - 1);
        InstantIsLinear(t0, period, c - 1);
        CeilingDivision(d, period, c - 1);
      }
    }
  }

  /** Cycle k finds every change done exactly from cycle CycleCount on. */
  lemma {:induction false} CycleCountIsFirstSettled(data: seq<Entry>, t0: int, period: int, k: nat)
    requires |data| >= 2 && period > 0
    ensures CursorAt(data, Instant(t0, period, k)) == |data| - 1 <==> k >= CycleCount(data, t0, period)
  {
    SettledIff(data, Instant(t0, period, k));
    if LastChange(data) <= t0 {
      InstantMonotone(t0, period, 0, k);
    } else {
      SettleFromIsFirst(data, t0, period, 0, k);
    }
  }

  // ---------------------------------------------------------------------------
  // What one signal becomes.

  /** The decoded value in effect at cycle k. */
  function SampleAt(data: seq<Entry>, t0: int, period: int, k: nat): Option<nat>
    requires |data| > 0
  {
    Decode(data[CursorAt(data, Instant(t0, period, k))].bits)
  }

  /** The samples of cycles 0..count-1 in order, or BadBitString when one of
      them does not decode. */
  function SampleRun(data: seq<Entry>, t0: int, period: int, count: nat): Result<seq<nat>>
    requires |data| > 0
  {
    if count == 0 then Ok([])
    else
      match SampleRun(data, t0, period, count - 1)
        case Err(e) => Err(e)
        case Ok(prefix) =>
          match SampleAt(data, t0, period, count - 1)
            case None => Err(BadBitString)
            case Some(v) => Ok(prefix + [v])
  }

  /** A run succeeds exactly when every cycle in it decodes; it then holds
      one value per cycle, the decoded value of that cycle. */
  lemma {:induction false} SampleRunMeaning(data: seq<Entry>, t0: int, period: int, count: nat)
    requires |data| > 0
    ensures SampleRun(data, t0, period, count).Ok? <==>
      forall k :: 0 <= k < count ==> SampleAt(data, t0, period, k).Some?
    ensures SampleRun(data, t0, period, count).Err? ==> SampleRun(data, t0, period, count).error == BadBitString
    ensures SampleRun(data, t0, period, count).Ok? ==>
      && |SampleRun(data, t0, period, count).value| == count
      && forall k :: 0 <= k < count ==> SampleAt(data, t0, period, k) == Some(SampleRun(data, t0, period, count).value[k])
  {
    if count > 0 {
      SampleRunMeaning(data, t0, period, count - 1);
      var run := SampleRun(data, t0, period, count);
      if run.Ok? {
        var prefix := SampleRun(data, t0, period, count - 1).value;
        assert run.value == prefix + [SampleAt(data, t0, period, count - 1).value];
        forall k | 0 <= k < count
          ensures SampleAt(data, t0, period, k) == Some(run.value[k])
        {
          if k < count - 1 {
            assert run.value[k] == prefix[k];
          }
        }
      }
    }
  }

  /** The per-cycle trace of one signal (lines 93-114): the value in effect at
      every cycle 0..CycleCount. A one-entry trace is that entry read directly
      in base 2, without the x/z substitution (line 114). */
  function SignalSamples(data: seq<Entry>, t0: int, period: int): Result<seq<nat>>
  {
    if |data| == 0 then Err(EmptyTrace)
    else if |data| == 1 then
      match ParseBinary(data[0].bits)
        case None => Err(BadBitString)
        case Some(v) => Ok([v])
    else if SampleAt(data, t0, period, 0).None? then Err(BadBitString)
    else if period <= 0 && CursorAt(data, t0) < |data| - 1 then Err(NeverAdvances)
    else
      SettledIff(data, t0);
      SampleRun(data, t0, period, CycleCount(data, t0, period) + 1)
  }

  /** The x and z characters replaced while sampling cycles 0..count-1. */
  function SampledIndeterminate(data: seq<Entry>, t0: int, period: int, count: nat): nat
    requires |data| > 0
  {
    if count == 0 then 0
    else
      var earlier := SampledIndeterminate(data, t0, period, count - 1);
      earlier + CountIndeterminate(data[CursorAt(data, Instant(t0, period, count - 1))].bits)
  }

  /** What a signal adds to `xz_count`: nothing for a one-entry trace. */
  function SignalIndeterminate(data: seq<Entry>, t0: int, period: int): nat
    requires SignalSamples(data, t0, period).Ok?
  {
    if |data| < 2 then 0
    else SampledIndeterminate(data, t0, period, |SignalSamples(data, t0, period).value|)
  }

  /** Cycles 0..c-1 all found a change still pending. */
  predicate Unsettled(data: seq<Entry>, t0: int, period: int, c: nat)
    requires |data| > 0
  {
    c == 0 || (Unsettled(data, t0, period, c - 1) && CursorAt(data, Instant(t0, period, c - 1)) < |data| - 1)
  }

  /** Sampling one more cycle adds that cycle's replacements. */
  lemma {:induction false} IndeterminateStep(data: seq<Entry>, t0: int, period: int, c: nat)
    requires |data| > 0
    ensures SampledIndeterminate(data, t0, period, c + 1)
      == SampledIndeterminate(data, t0, period, c) + CountIndeterminate(data[CursorAt(data, Instant(t0, period, c))].bits)
  {
  }

  /** Past the first-cycle checks, a signal is the run of cycles up to the
      one that finds every change done. */
  lemma {:induction false} SignalSamplesRegular(data: seq<Entry>, t0: int, period: int)
    requires |data| >= 2 && SampleAt(data, t0, period, 0).Some?
    requires period > 0 || CursorAt(data, t0) == |data| - 1
    ensures period > 0 || LastChange(data) <= t0
    ensures SignalSamples(data, t0, period) == SampleRun(data, t0, period, CycleCount(data, t0, period) + 1)
  {
    SettledIff(data, t0);
  }

  /** A cycle that does not decode, reached while a change was still
      pending, makes the whole signal fail. */
  lemma {:induction false} SampleFails(data: seq<Entry>, t0: int, period: int, c: nat)
    requires |data| >= 2
    requires period > 0 || c == 0
    requires Unsettled(data, t0, period, c)
    requires SampleAt(data, t0, period, c).None?
    ensures SignalSamples(data, t0, period) == Err(BadBitString)
  {
    if c == 0 {
      assert Instant(t0, period, c) == t0;
    } else if SampleAt(data, t0, period, 0).Some? {
      CycleCountIsFirstSettled(data, t0, period, c - 1);
      SignalSamplesRegular(data, t0, period);
      var last := CycleCount(data, t0, period);
      SampleRunMeaning(data, t0, period, last + 1);
      assert c < last + 1;
    }
  }

  /** A run of c+1 decoded cycles whose last one found every change done is
      the whole trace. */
  lemma {:induction false} SamplesComplete(data: seq<Entry>, t0: int, period: int, trace: seq<nat>, c: nat)
    requires |data| >= 2
    requires period > 0 || c == 0
    requires Unsettled(data, t0, period, c)
    requires CursorAt(data, Instant(t0, period, c)) == |data| - 1
    requires SampleRun(data, t0, period, c + 1) == Ok(trace)
    ensures SignalSamples(data, t0, period) == Ok(trace)
  {
    SampleRunMeaning(data, t0, period, c + 1);
    assert SampleAt(data, t0, period, 0).Some?;
    if period > 0 {
      CycleCountIsFirstSettled(data, t0, period, c);
      if c > 0 {
        CycleCountIsFirstSettled(data, t0, period, c - 1);
      }
    } else {
      assert Instant(t0, period, c) == t0;
    }
    SignalSamplesRegular(data, t0, period);
  }

  /** The state of the loop of lines 96-112 before cycle `clock` is sampled
      (or, once `settled`, after the final one): the cursor `idx` has passed
      only changes at or before `time`, `trace` holds the samples so far, and
      the x/z count has grown from `xzIn` to `xz` by what they replaced. */
  predicate Walking(data: seq<Entry>, t0: int, period: int, clock: nat, time: int, idx: nat,
                    trace: seq<nat>, settled: bool, xzIn: nat, xz: nat)
  {
    && |data| >= 2 && idx < |data|
    && (period <= 0 ==> clock == 0)
    && time == Instant(t0, period, clock)
    && idx <= CursorAt(data, time)
    && (if settled then |trace| == clock + 1 && CursorAt(data, time) == |data| - 1 else |trace| == clock)
    && Unsettled(data, t0, period, clock)
    && SampleRun(data, t0, period, |trace|) == Ok(trace)
    && xz == xzIn + SampledIndeterminate(data, t0, period, |trace|)
  }

  /** When the loop stops on the final entry, the trace is the whole
      per-cycle trace and the x/z count has grown by what it replaced. */
  lemma {:induction false} WalkDone(data: seq<Entry>, t0: int, period: int, clock: nat, time: int,
                                    idx: nat, trace: seq<nat>, xzIn: nat, xz: nat)
    requires Walking(data, t0, period, clock, time, idx, trace, true, xzIn, xz)
    ensures SignalSamples(data, t0, period) == Ok(trace)
    ensures |trace| == clock + 1
    ensures xz == xzIn + SampledIndeterminate(data, t0, period, |trace|)
  {
    SamplesComplete(data, t0, period, trace, clock);
  }

  lemma {:induction false} WalkStart(data: seq<Entry>, t0: int, period: int, xzIn: nat)
    requires |data| >= 2
    ensures Walking(data, t0, period, 0, t0, 0, [], false, xzIn, xzIn)
  {
  }

  /** The cycle sampled the final entry: the loop ends. */
  lemma {:induction false} SettleStep(data: seq<Entry>, t0: int, period: int, clock: nat, time: int, idx: nat,
                   trace: seq<nat>, v: nat,
                   xzIn: nat, xz: nat, replaced: nat)
    requires Walking(data, t0, period, clock, time, idx, trace, false, xzIn, xz)
    requires CursorAt(data, time) == |data| - 1
    requires SampleAt(data, t0, period, clock) == Some(v)
    requires replaced == CountIndeterminate(data[CursorAt(data, time)].bits)
    ensures Walking(data, t0, period, clock, time, |data| - 1, trace + [v], true, xzIn, xz + replaced)
  {
    IndeterminateStep(data, t0, period, clock);
  }

  /** The cycle found a change still pending: move on one period (line 112). */
  lemma {:induction false} AdvanceStep(data: seq<Entry>, t0: int, period: int, clock: nat, time: int, idx: nat,
                    trace: seq<nat>, v: nat,
                    xzIn: nat, xz: nat, replaced: nat)
    requires Walking(data, t0, period, clock, time, idx, trace, false, xzIn, xz)
    requires period > 0 && idx == CursorAt(data, time) && idx < |data| - 1
    requires SampleAt(data, t0, period, clock) == Some(v)
    requires replaced == CountIndeterminate(data[CursorAt(data, time)].bits)
    ensures Walking(data, t0, period, clock + 1, time + period, idx, trace + [v], false, xzIn, xz + replaced)
    ensures time < LastChange(data)
  {
    IndeterminateStep(data, t0, period, clock);
    SettledIff(data, time);
    CursorMonotone(data, time, time + period);
  }

  /** A non-positive period with a change still pending never advances. */
  lemma {:induction false} StuckStep(data: seq<Entry>, t0: int, period: int, clock: nat, time: int, idx: nat,
                  trace: seq<nat>, v: nat,
                  xzIn: nat, xz: nat)
    requires Walking(data, t0, period, clock, time, idx, trace, false, xzIn, xz)
    requires period <= 0 && idx == CursorAt(data, time) && idx < |data| - 1
    requires SampleAt(data, t0, period, clock) == Some(v)
    ensures SignalSamples(data, t0, period) == Err(NeverAdvances)
  {
  }

  /** One cycle of the loop of lines 96-112: advance the cursor past every
      change at or before the current instant (lines 99-101), then decode the
      entry it rests on (lines 102-108). */
  method SampleCycle(data: seq<Entry>, t0: int, period: int, clock: nat, from: nat)
    returns (entryIdx: nat, value: Option<nat>, replaced: nat)
    requires from < |data|
    requires from <= CursorAt(data, Instant(t0, period, clock))
    ensures entryIdx == CursorAt(data, Instant(t0, period, clock))
    ensures value == SampleAt(data, t0, period, clock)
    ensures replaced == CountIndeterminate(data[entryIdx].bits)
  {
    var currentTime := Instant(t0, period, clock);
    CursorAtMeaning(data, currentTime);
    entryIdx := from;
    while entryIdx < |data| - 1 && data[entryIdx + 1].time <= currentTime
      invariant from <= entryIdx <= CursorAt(data, currentTime)
    {
      entryIdx := entryIdx + 1;
    }
    value, replaced := DecodeEntry(data[entryIdx].bits);
  }

  /** One pass of the loop body of lines 99-112 from cycle `clock`: advance
      the cursor, decode and append the entry it rests on, and, while a change
      is still pending, move on to the next cycle, raising the running
      maximum. Stops with an error where the script would fail or spin. */
  method Cycle(data: seq<Entry>, t0: int, period: int, clock: nat, time: int, from: nat,
               trace: seq<nat>, xzIn: nat, xz: nat, maxIn: nat, max: nat)
    returns (failure: Option<Error>, nextClock: nat, nextTime: int, idx: nat,
             nextTrace: seq<nat>, nextXz: nat, settled: bool, nextMax: nat)
    requires Walking(data, t0, period, clock, time, from, trace, false, xzIn, xz)
    requires max == Max(maxIn, clock)
    ensures failure.Some? ==> SignalSamples(data, t0, period) == Err(failure.value)
    ensures failure.None? ==>
      && Walking(data, t0, period, nextClock, nextTime, idx, nextTrace, settled, xzIn, nextXz)
      && nextMax == Max(maxIn, nextClock)
      && (!settled ==> time < nextTime && time < LastChange(data))
  {
    var value, replaced;
    idx, value, replaced := SampleCycle(data, t0, period, clock, from);
    nextClock, nextTime, nextTrace, nextXz, settled, nextMax := clock, time, trace, xz, false, max;
    if value.None? {
      SampleFails(data, t0, period, clock);
      return Some(BadBitString), nextClock, nextTime, idx, nextTrace, nextXz, settled, nextMax;
    }
    var v := value.value;
    nextTrace := trace + [v];
    nextXz := xz + replaced;
    failure := None;
    if idx == |data| - 1 {
      SettleStep(data, t0, period, clock, time, from, trace, v, xzIn, xz, replaced);
      settled := true;
    } else if period <= 0 {
      StuckStep(data, t0, period, clock, time, idx, trace, v, xzIn, xz);
      failure := Some(NeverAdvances);
    } else {
      AdvanceStep(data, t0, period, clock, time, idx, trace, v, xzIn, xz, replaced);
      nextClock := clock + 1;
      if nextClock > nextMax {
        nextMax := nextClock;
      }
      MaxStep(maxIn, clock, max, nextMax);
      nextTime := time + period;
    }
  }

  /** The loop of lines 96-112 for a signal with at least two entries (with
      fewer, the loop condition of line 99 is false at once). */
  method WalkTrace(data: seq<Entry>, t0: int, period: int, maxIn: nat, xzIn: nat)
    returns (r: Result<seq<nat>>, maxOut: nat, xzOut: nat)
    requires |data| >= 2
    ensures r == SignalSamples(data, t0, period)
    ensures r.Ok? ==> maxOut == Max(maxIn, |r.value| - 1)
    ensures r.Ok? ==> xzOut == xzIn + SampledIndeterminate(data, t0, period, |r.value|)
  {
    ghost var last := LastChange(data);
    maxOut, xzOut := maxIn, xzIn;
    var trace: seq<nat> := [];
    var currentTime := t0;
    var currentClock: nat := 0;
    var entryIdx: nat := 0;
    var settled := false;
    WalkStart(data, t0, period, xzIn);
    while !settled
      invariant Walking(data, t0, period, currentClock, currentTime, entryIdx, trace, settled, xzIn, xzOut)
      invariant maxOut == Max(maxIn, currentClock)
      decreases !settled, if currentTime <= last then last - currentTime + 1 else 0
    {
      var failure;
      failure, currentClock, currentTime, entryIdx, trace, xzOut, settled, maxOut :=
        Cycle(data, t0, period, currentClock, currentTime, entryIdx, trace, xzIn, xzOut, maxIn, maxOut);
      if failure.Some? {
        return Err(failure.value), maxOut, xzOut;
      }
    }
    WalkDone(data, t0, period, currentClock, currentTime, entryIdx, trace, xzIn, xzOut);
    r := Ok(trace);
  }

  /** Lines 93-114 for one signal. `maxIn` and `xzIn` are the script's
      `max_clock` and `xz_count` before this signal. */
  method ResampleSignal(data: seq<Entry>, t0: int, period: int, maxIn: nat, xzIn: nat)
    returns (r: Result<seq<nat>>, maxOut: nat, xzOut: nat)
    ensures r == SignalSamples(data, t0, period)
    ensures r.Ok? ==> maxOut == Max(maxIn, |r.value| - 1)
    ensures r.Ok? ==> xzOut == xzIn + SignalIndeterminate(data, t0, period)
  {
    if |data| >= 2 {
      r, maxOut, xzOut := WalkTrace(data, t0, period, maxIn, xzIn);
      return;
    }
    maxOut, xzOut := maxIn, xzIn;
    // The trace is still empty: read the last entry directly (line 114).
    if |data| == 0 {
      r := Err(EmptyTrace);
      return;
    }
    var value := ParseBinary(data[|data| - 1].bits);
    if value.None? {
      r := Err(BadBitString);
      return;
    }
    r := Ok([value.value]);
  }

  // ---------------------------------------------------------------------------
  // What a resampled signal looks like.

  /** A resampled signal has at least one value. */
  lemma {:induction false} SignalSamplesNonEmpty(data: seq<Entry>, t0: int, period: int)
    requires SignalSamples(data, t0, period).Ok?
    ensures |SignalSamples(data, t0, period).value| >= 1
  {
    if |data| >= 2 {
      SettledIff(data, t0);
      SignalSamplesRegular(data, t0, period);
      SampleRunMeaning(data, t0, period, CycleCount(data, t0, period) + 1);
    }
  }

  /** With two or more entries,
      value k is the decoding of the entry in effect at cycle k, and the last
      value is the decoding of the final entry: the trace stops at the first
      cycle that has seen every change. A one-entry trace is that entry read
      in base 2 as it stands. */
  lemma {:induction false} SignalSamplesShape(data: seq<Entry>, t0: int, period: int)
    requires SignalSamples(data, t0, period).Ok?
    ensures |data| == 1 ==> SignalSamples(data, t0, period).value == [ParseBinary(data[0].bits).value]
    ensures |data| >= 2 ==> forall k :: 0 <= k < |SignalSamples(data, t0, period).value| ==>
      SampleAt(data, t0, period, k) == Some(SignalSamples(data, t0, period).value[k])
    ensures |data| >= 2 ==>
      var trace := SignalSamples(data, t0, period).value;
      Decode(data[|data| - 1].bits) == Some(trace[|trace| - 1])
  {
    if |data| >= 2 {
      SettledIff(data, t0);
      SignalSamplesRegular(data, t0, period);
      var last := CycleCount(data, t0, period);
      SampleRunMeaning(data, t0, period, last + 1);
      if period > 0 {
        CycleCountIsFirstSettled(data, t0, period, last);
      } else {
        assert Instant(t0, period, last) == t0;
      }
    }
  }

  /** The worked example: a 2-bit signal that reads 00 from time 0 and 1x from
      time 12, sampled from time 5 every 10 time units, is sampled twice (at 5
      and at 15, where its last change has happened) and gives 0 then 2, with
      one x replaced. */
  lemma ResampleExample()
    ensures SignalSamples([Entry(0, "00"), Entry(12, "1x")], 5, 10) == Ok([0, 2])
    ensures SignalIndeterminate([Entry(0, "00"), Entry(12, "1x")], 5, 10) == 1
  {
    var data := [Entry(0, "00"), Entry(12, "1x")];
    assert LastChange(data) == 12;
    assert Instant(5, 10, 1) == 15;
    assert SettleFrom(data, 5, 10, 1) == 1;
    assert CycleCount(data, 5, 10) == 1;
    assert CursorAt(data, 5) == 0;
    assert CursorAt(data, 15) == 1;
    assert Scrub("00") == "00";
    assert Scrub("1x") == "10";
    assert ParseBinary("00") == Some(0) by {
      assert "00"[..1] == "0";
    }
    assert ParseBinary("10") == Some(2) by {
      assert "10"[..1] == "1";
    }
    assert SampleAt(data, 5, 10, 0) == Some(0);
    assert SampleAt(data, 5, 10, 1) == Some(2);
    assert SampleRun(data, 5, 10, 0) == Ok([]);
    assert SampleRun(data, 5, 10, 1) == Ok([] + [0]);
    assert SampleRun(data, 5, 10, 2) == Ok([] + [0] + [2]);
    assert [] + [0] + [2] == [0, 2];
    assert CountIndeterminate("00") == 0 by {
      assert "00"[..1] == "0";
    }
    assert CountIndeterminate("1x") == 1 by {
      assert "1x"[..1] == "1";
    }
  }
}
