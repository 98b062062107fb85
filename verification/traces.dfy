/** Resampling every non-clock signal and padding the traces to a common
    length (vcd2csv/vcd2csv.py:90-118). */
module Traces {
  import opened Common
  import opened Resample

  /** What the resampling phase leaves behind: `sigs_trace`, `max_clock` and
      `xz_count`. */
  datatype Resampled = Resampled(traces: map<string, seq<nat>>, maxClock: nat, xz: nat)

  /** Whether a signal stops the run: it is missing from the waveform, or its
      trace does not resample. */
  predicate Fails(vcd: map<string, seq<Entry>>, name: string, t0: int, period: int)
  {
    name !in vcd || SignalSamples(vcd[name], t0, period).Err?
  }

  /** The error a failing signal stops the run with. */
  function FailureOf(vcd: map<string, seq<Entry>>, name: string, t0: int, period: int): Error
    requires Fails(vcd, name, t0, period)
  {
    if name !in vcd then SignalNotFound(name) else SignalSamples(vcd[name], t0, period).error
  }

  /** One more signal resampled after those already done (lines 94-114):
      its trace is stored under its name, replacing any earlier one, and
      `max_clock` and `xz_count` grow by what it adds. */
  function AddSignal(vcd: map<string, seq<Entry>>, acc: Resampled, name: string, t0: int, period: int): Result<Resampled>
  {
    if Fails(vcd, name, t0, period) then Err(FailureOf(vcd, name, t0, period))
    else
      var trace := SignalSamples(vcd[name], t0, period).value;
      Ok(Resampled(acc.traces[name := trace], Max(acc.maxClock, |trace| - 1),
                   acc.xz + SignalIndeterminate(vcd[name], t0, period)))
  }

  /** The signals resampled one after the other, in list order. A name listed
      twice is resampled twice: its trace is replaced, while `max_clock` and
      `xz_count` take both passes into account. */
  function ResampleNames(vcd: map<string, seq<Entry>>, names: seq<string>, t0: int, period: int): Result<Resampled>
  {
    if |names| == 0 then Ok(Resampled(map[], 0, 0))
    else
      match ResampleNames(vcd, names[..|names| - 1], t0, period)
        case Err(e) => Err(e)
        case Ok(acc) => AddSignal(vcd, acc, names[|names| - 1], t0, period)
  }

  lemma {:induction false} ResampleNamesStep(vcd: map<string, seq<Entry>>, names: seq<string>, t0: int, period: int,
                                             i: nat, acc: Resampled)
    requires i < |names|
    requires ResampleNames(vcd, names[..i], t0, period) == Ok(acc)
    ensures ResampleNames(vcd, names[..i + 1], t0, period) == AddSignal(vcd, acc, names[i], t0, period)
  {
    assert names[..i + 1][..i] == names[..i];
  }

  /** Once a prefix of the list fails, the whole list fails the same way. */
  lemma {:induction false} FailureSticks(vcd: map<string, seq<Entry>>, names: seq<string>, t0: int, period: int, k: nat)
    requires k <= |names|
    requires ResampleNames(vcd, names[..k], t0, period).Err?
    ensures ResampleNames(vcd, names, t0, period) == ResampleNames(vcd, names[..k], t0, period)
    decreases |names|
  {
    if k < |names| {
      var init := names[..|names| - 1];
      assert init[..k] == names[..k];
      FailureSticks(vcd, init, t0, period, k);
    } else {
      assert names[..k] == names;
    }
  }

  /** Lines 94-114 for one listed signal: look its trace up by name (a
      missing name raises KeyError), resample it, and store the result. */
  method ResampleOne(vcd: map<string, seq<Entry>>, acc: Resampled, name: string, t0: int, period: int)
    returns (r: Result<Resampled>)
    ensures r == AddSignal(vcd, acc, name, t0, period)
  {
    if name !in vcd {
      return Err(SignalNotFound(name));
    }
    var trace, maxClock, xz := ResampleSignal(vcd[name], t0, period, acc.maxClock, acc.xz);
    if trace.Err? {
      return Err(trace.error);
    }
    r := Ok(Resampled(acc.traces[name := trace.value], maxClock, xz));
  }

  /** Lines 93-114: resample each listed signal in turn, threading
      `max_clock` and `xz_count` through. */
  method ResampleAll(vcd: map<string, seq<Entry>>, names: seq<string>, t0: int, period: int)
    returns (r: Result<Resampled>)
    ensures r == ResampleNames(vcd, names, t0, period)
  {
    var acc := Resampled(map[], 0, 0);
    var i := 0;
    while i < |names|
      invariant 0 <= i <= |names|
      invariant ResampleNames(vcd, names[..i], t0, period) == Ok(acc)
    {
      ResampleNamesStep(vcd, names, t0, period, i, acc);
      var next := ResampleOne(vcd, acc, names[i], t0, period);
      if next.Err? {
        FailureSticks(vcd, names, t0, period, i + 1);
        return next;
      }
      acc := next.value;
      i := i + 1;
    }
    assert names[..|names|] == names;
    r := Ok(acc);
  }

  /** The resampling phase succeeds exactly when no listed signal fails, and
      then stops with the error of the first one that does. */
  lemma {:induction false} ResampleNamesOutcome(vcd: map<string, seq<Entry>>, names: seq<string>, t0: int, period: int)
    ensures ResampleNames(vcd, names, t0, period).Ok? <==>
      forall k :: 0 <= k < |names| ==> !Fails(vcd, names[k], t0, period)
    ensures ResampleNames(vcd, names, t0, period).Err? ==> exists k ::
      && 0 <= k < |names| && Fails(vcd, names[k], t0, period)
      && (forall j :: 0 <= j < k ==> !Fails(vcd, names[j], t0, period))
      && ResampleNames(vcd, names, t0, period).error == FailureOf(vcd, names[k], t0, period)
  {
    if |names| > 0 {
      var init := names[..|names| - 1];
      ResampleNamesOutcome(vcd, init, t0, period);
      assert forall k :: 0 <= k < |init| ==> init[k] == names[k];
    }
  }

  /** After resampling, exactly the listed signals have a trace. */
  lemma {:induction false} ResampledKeys(vcd: map<string, seq<Entry>>, names: seq<string>, t0: int, period: int)
    requires ResampleNames(vcd, names, t0, period).Ok?
    ensures forall n :: n in ResampleNames(vcd, names, t0, period).value.traces <==> n in names
  {
    if |names| > 0 {
      var init := names[..|names| - 1];
      ResampledKeys(vcd, init, t0, period);
      assert names == init + [names[|names| - 1]];
    }
  }

  /** After resampling, each stored trace is that signal's resampled trace. */
  lemma {:induction false} ResampledContents(vcd: map<string, seq<Entry>>, names: seq<string>, t0: int, period: int)
    requires ResampleNames(vcd, names, t0, period).Ok?
    ensures var res := ResampleNames(vcd, names, t0, period).value;
      forall n :: n in res.traces ==> n in vcd && SignalSamples(vcd[n], t0, period) == Ok(res.traces[n])
  {
    if |names| > 0 {
      ResampledContents(vcd, names[..|names| - 1], t0, period);
    }
  }

  /** After resampling, each stored trace has between 1 and max_clock+1
      values. */
  lemma {:induction false} ResampledLengths(vcd: map<string, seq<Entry>>, names: seq<string>, t0: int, period: int)
    requires ResampleNames(vcd, names, t0, period).Ok?
    ensures var res := ResampleNames(vcd, names, t0, period).value;
      forall n :: n in res.traces ==> 1 <= |res.traces[n]| <= res.maxClock + 1
  {
    if |names| > 0 {
      var name := names[|names| - 1];
      ResampledLengths(vcd, names[..|names| - 1], t0, period);
      SignalSamplesNonEmpty(vcd[name], t0, period);
    }
  }

  /** max_clock is the index of the last value of the longest trace, or 0
      when there is no signal to resample. */
  lemma {:induction false} ResampledLongest(vcd: map<string, seq<Entry>>, names: seq<string>, t0: int, period: int)
    requires ResampleNames(vcd, names, t0, period).Ok?
    ensures var res := ResampleNames(vcd, names, t0, period).value;
      && (|names| == 0 ==> res.maxClock == 0)
      && (|names| > 0 ==> exists n :: n in res.traces && |res.traces[n]| == res.maxClock + 1)
  {
    if |names| > 0 {
      var init := names[..|names| - 1];
      var name := names[|names| - 1];
      ResampledLongest(vcd, init, t0, period);
      SignalSamplesNonEmpty(vcd[name], t0, period);
      var acc := ResampleNames(vcd, init, t0, period).value;
      var res := ResampleNames(vcd, names, t0, period).value;
      if |init| > 0 && res.maxClock != |res.traces[name]| - 1 {
        var n :| n in acc.traces && |acc.traces[n]| == acc.maxClock + 1;
        if n != name {
          assert res.traces[n] == acc.traces[n];
        } else {
          // A name seen before resamples to the same trace again.
          ResampledContents(vcd, init, t0, period);
        }
      }
    }
  }

  // ---------------------------------------------------------------------------
  // Padding (lines 115-118).

  /** A trace extended with copies of its last value up to `length` values;
      a trace that already has that many is left as it is. */
  function Padded(trace: seq<nat>, length: nat): (r: seq<nat>)
    requires |trace| > 0
    ensures |r| >= |trace| && |r| >= length
    decreases length - |trace|
  {
    if |trace| >= length then trace else Padded(trace + [trace[|trace| - 1]], length)
  }

  /** The padded trace keeps the original values, has length at least
      `length`, and every added value is the original last value. */
  lemma {:induction false} PaddedMeaning(trace: seq<nat>, length: nat)
    requires |trace| > 0
    ensures |Padded(trace, length)| == if |trace| >= length then |trace| else length
    ensures Padded(trace, length)[..|trace|] == trace
    ensures forall i :: |trace| <= i < |Padded(trace, length)| ==> Padded(trace, length)[i] == trace[|trace| - 1]
    decreases length - |trace|
  {
    if |trace| < length {
      var longer := trace + [trace[|trace| - 1]];
      PaddedMeaning(longer, length);
      assert Padded(trace, length)[..|trace|] == longer[..|trace|];
    }
  }

  /** Padding twice to the same length is padding once. */
  lemma PaddedIdempotent(trace: seq<nat>, length: nat)
    requires |trace| > 0
    ensures Padded(Padded(trace, length), length) == Padded(trace, length)
  {
    PaddedMeaning(trace, length);
  }

  /** Lines 117-118 for one signal: append the last value until the trace has
      `length` values. */
  method PadTrace(trace: seq<nat>, length: nat) returns (r: seq<nat>)
    requires |trace| > 0
    ensures r == Padded(trace, length)
  {
    r := trace;
    while |r| < length
      invariant |r| > 0 && Padded(r, length) == Padded(trace, length)
      decreases length - |r|
    {
      r := r + [r[|r| - 1]];
    }
  }

  /** `sigs_trace` after lines 115-118: the trace of every listed signal
      padded to max_clock+1 values, every other trace as it was. */
  function PadMap(traces: map<string, seq<nat>>, names: seq<string>, maxClock: nat): map<string, seq<nat>>
    requires forall n :: n in traces ==> |traces[n]| > 0
  {
    map n | n in traces :: if n in names then Padded(traces[n], maxClock + 1) else traces[n]
  }

  /** Lines 115-118: pad the trace of every listed signal to max_clock+1
      values. */
  method PadAll(traces: map<string, seq<nat>>, names: seq<string>, maxClock: nat)
    returns (padded: map<string, seq<nat>>)
    requires forall n :: n in traces ==> |traces[n]| > 0
    requires forall k :: 0 <= k < |names| ==> names[k] in traces
    ensures padded.Keys == traces.Keys
    ensures forall n :: n in traces ==>
      padded[n] == if n in names then Padded(traces[n], maxClock + 1) else traces[n]
    ensures padded == PadMap(traces, names, maxClock)
  {
    padded := traces;
    var i := 0;
    while i < |names|
      invariant 0 <= i <= |names|
      invariant padded.Keys == traces.Keys
      invariant forall n :: n in padded ==> |padded[n]| > 0
      invariant forall n :: n in traces ==>
        padded[n] == if n in names[..i] then Padded(traces[n], maxClock + 1) else traces[n]
    {
      var name := names[i];
      PaddedIdempotent(traces[name], maxClock + 1);
      var longer := PadTrace(padded[name], maxClock + 1);
      padded := padded[name := longer];
      assert names[..i + 1] == names[..i] + [name];
      i := i + 1;
    }
    assert names[..|names|] == names;
  }

  /** After resampling and padding, every listed signal's trace has exactly
      max_clock+1 values: it begins with its resampled values and the rest
      repeat the last of them. */
  lemma PaddedTraces(vcd: map<string, seq<Entry>>, names: seq<string>, t0: int, period: int, n: string)
    requires ResampleNames(vcd, names, t0, period).Ok?
    requires n in names
    ensures var res := ResampleNames(vcd, names, t0, period).value;
      && n in res.traces && |res.traces[n]| > 0
      && var trace := res.traces[n];
      var full := Padded(trace, res.maxClock + 1);
      && |full| == res.maxClock + 1
      && full[..|trace|] == trace
      && forall i :: |trace| <= i < |full| ==> full[i] == trace[|trace| - 1]
  {
    ResampledKeys(vcd, names, t0, period);
    ResampledLengths(vcd, names, t0, period);
    var res := ResampleNames(vcd, names, t0, period).value;
    PaddedMeaning(res.traces[n], res.maxClock + 1);
  }
}
