# vcd2csv in Dafny

A model of `vcd2csv/vcd2csv.py`, the script that turns a Value Change Dump
waveform into a table with one row per clock cycle. The model takes the
signal list as lines of tokens and the waveform as a map from each listed
signal name to its trace of `(time, bit string)` entries. It then runs the
stages of the script in order:

- **Signal list** (`signal_list.dfy`, module `SignalList`):
  - Reads the list the way the script does: one signal per line.
  - A line `<name> CLOCK` marks the clock.
  - The tokens `N` and `[H:L]` after a name ask for bit ranges.
  - Moves the clock to the front of the list.
  - Every way the script stops becomes an `Err` result: a blank line, a
    second clock, no clock, an unclosed `[`, a number `int()` refuses, or a
    high bit below the low bit.
- **Clock** (`clock.dfy`, module `Clock`): finds the first clock entry that
  reads 1. That entry's time is the first rising edge. The period is the time
  from that entry to the entry two places further on.
- **Resampler** (`resample.dfy`, module `Resample`, and `traces.dfy`, module
  `Traces`):
  - For each non-clock signal, a cursor walks its trace.
  - At the first rising edge, and every period after it, the cursor picks the
    entry in effect.
  - That entry's bit string is decoded with `x` and `z` read as `0`, and the
    replacements are counted in `xz_count`.
  - The walk stops once the cursor rests on the final entry.
  - `max_clock` is the index of the last cycle of the longest trace. Every
    trace is then padded with its last value to `max_clock + 1` values.
- **Hamming distance** (`hamming.dfy`, module `Hamming`, over the bit
  arithmetic of `bits.dfy`, module `Bits`): `computeHamming`'s loop, proved
  equal to the population count of `a XOR b`.
- **Table** (`table.dfy`, module `Table`):
  - The header is `Cycle`, `Global_Distance`, then a name pair per signal, or
    one per bit range of the signal.
  - The rows hold the cycle and the global distance. Then each column holds
    its value (a whole sample, or the masked bits `(v >> L) & ((1 << (H-L+1)) - 1)`)
    and its local distance from the previous cycle.
- **The whole run** (`convert.dfy`, module `Convert`):
  - The stages are chained as the script chains them, and the run is proved
    equal to the function `Converted`.
  - A table the run writes is the header and the rows of the padded traces.
  - `ConvertedOutcome` says when the run succeeds, and that such a table is
    well shaped.

`numerals.dfy` (module `Numerals`) models Python's `int(s)`, `str(n)` and
`int(s, 2)` on the strings the script feeds them. `common.dfy` (module
`Common`) holds the error outcomes, `Option`, `Result` and the trace entry.

Each loop of the script is a Dafny `method` with a loop. The method is proved
equal to a function that specifies it, and lemmas state what that function
means. The in-place rewrite of the bytearray at lines 103-106 works on an
`array<char>`.

Behaviours of the code that a reader might not expect, and that the model
keeps:

- **Lines 53-54:** an illegal range (high below low) stops the run. The error
  message adds an `int` to a `str`, which raises `TypeError`. The model
  returns `IllegalRange`. It does not carry on past the bad range.
- **Line 114:** a signal whose trace has a single entry is read with
  `int(bits, 2)` directly. There is no `x`/`z` substitution and no count, so a
  lone `x` value stops the run (`BadBitString`).
- **Lines 99-112:** sampling stops at the first cycle whose instant has seen
  the signal's last change. So the two-entry trace `(0,"00"), (12,"1x")`,
  sampled from time 5 every 10, gives the two values 0 and 2 (at 5 and 15),
  not three values 0, 0, 1 (`Resample.ResampleExample`).
- **Line 148:** `Global_Distance` always sums full-width distances:
  - When no listed signal asks for bit ranges, it is always the sum of the
    row's local distances (`Table.GlobalIsSumOfLocals`).
  - With ranges the two can differ. A signal going from 0 to 2 with the range
    `[0:0]` has a non-zero global distance and a local distance of 0
    (`Table.GlobalDiffersWithRanges`).
- **Lines 80 and 87:** the clock's value is read with `int()` in base 10.
  A clock value `int()` refuses, such as `x`, stops the run (`BadClockValue`)
  only when it comes before the first entry reading 1
  (`Clock.GeometryMeaning`). The scan ends at that first rising edge, so a
  later value is never read (`Clock.LaterValuesUnread`). Too few entries
  after the first edge stops the run with `IndexError` (`ClockTooShort`).
  Neither stop is taken as a precondition.
- **Lines 99-112 with a period of 0 or less:** the loop never ends while the
  signal still has a change pending. The model returns `NeverAdvances`
  instead of requiring a positive period.

## Model

| member | source | states |
|---|---|---|
| `Hamming.ComputeHamming` | vcd2csv/vcd2csv.py:7-14 | the shift-and-compare loop ends and returns the number of one bits of `a XOR b` |
| `Hamming.DistanceSymmetric` | vcd2csv/vcd2csv.py:7-14 | the distance from a to b is the distance from b to a |
| `Hamming.DistanceZeroIff` | vcd2csv/vcd2csv.py:7-14 | the distance is 0 exactly when the two integers are equal |
| `Hamming.DistanceOfXor` | vcd2csv/vcd2csv.py:7-14 | the distance between a and b is the distance between `a XOR b` and 0 |
| `Hamming.DistanceCountsPositions` | vcd2csv/vcd2csv.py:7-14 | for operands below 2^n, the distance is the number of bit positions below n where they differ |
| `Hamming.DistanceWithinWidth` | vcd2csv/vcd2csv.py:7-14 | operands that fit in w bits are at most w apart |
| `Hamming.SliceDistance` | vcd2csv/vcd2csv.py:159-168 | the distance between the masked bits L..H of two values counts the positions L..H where the values differ, so it is at most H-L+1 |
| `Bits.ShiftRightIsDiv` | vcd2csv/vcd2csv.py:160 | `v >> n` is v divided by 2^n |
| `Bits.MaskIsMod` | vcd2csv/vcd2csv.py:161 | `x & ((1 << w) - 1)` is x modulo 2^w |
| `Bits.SliceIsMod` | vcd2csv/vcd2csv.py:159-161 | the masked value is `(v >> L) mod 2^(H-L+1)`, so it lies below 2^(H-L+1) |
| `Bits.BitOfSlice` | vcd2csv/vcd2csv.py:159-161 | bit i of the masked value is bit L+i of the original |
| `Numerals.NatToStringValue` | vcd2csv/vcd2csv.py:135 | the decimal digits `str(n)` writes read back as n |
| `Numerals.ParseIntOfString` | vcd2csv/vcd2csv.py:50-52 | `int(str(n)) == n` for every integer, negative ones included |
| `Numerals.ParseBinaryMeaning` | vcd2csv/vcd2csv.py:107 | the model's `int(s, 2)`, on the unsigned, unprefixed bit strings of a waveform, succeeds exactly when s is non-empty and made of 0 and 1, and its value is then below 2^len(s) |
| `Numerals.BitOfBinary` | vcd2csv/vcd2csv.py:107 | bit i of `int(s, 2)` is 1 exactly when the i-th character of s from the right is 1 |
| `SignalList.ParseRangeToken` | vcd2csv/vcd2csv.py:44-54 | a range token that is accepted never has its high bit below its low bit |
| `SignalList.UnclosedRange` | vcd2csv/vcd2csv.py:45-48 | a token opening with `[` but not closing with `]` stops the run with IncompleteRange |
| `SignalList.RangeTokenOfIndex` | vcd2csv/vcd2csv.py:51-52 | the token `N` reads as the one-bit range N..N |
| `SignalList.RangeTokenOfPair` | vcd2csv/vcd2csv.py:44-54 | the token `[H:L]` reads as the range H..L when H >= L, and stops the run with IllegalRange when H < L |
| `SignalList.ParseRanges` | vcd2csv/vcd2csv.py:43-54 | a line's ranges are read exactly when every token reads; they come in token order; otherwise the error is that of the first bad token |
| `SignalList.CollectRanges` | vcd2csv/vcd2csv.py:43-54 | the token loop yields the ranges of ParseRanges, or its error |
| `SignalList.ClockLineClassified` | vcd2csv/vcd2csv.py:33-41 | a line of two tokens whose second is `CLOCK` marks its first token as the clock |
| `SignalList.RangedLineRanges` | vcd2csv/vcd2csv.py:42-54 | a ranged line declares its first token, with one range per later token, in declaration order |
| `SignalList.ReadLine` | vcd2csv/vcd2csv.py:30-54 | one line's reading is the one whose ranged case RangedLineRanges states and whose effect on the whole list ParseListMeaning states |
| `SignalList.ParseSignalList` | vcd2csv/vcd2csv.py:25-61 | the line loop followed by the clock move yields exactly ParseList |
| `SignalList.ReadLinesSticks` | vcd2csv/vcd2csv.py:29-41 | once a line stops the run, later lines change nothing |
| `SignalList.ReadLinesOk` | vcd2csv/vcd2csv.py:25-54 | a state the loop reaches has seen no stopping line; it holds every name in file order and the ranges of the last declarations; it has a clock exactly when one clock line was read, and that clock comes from a clock line |
| `SignalList.ReadLinesErr` | vcd2csv/vcd2csv.py:29-54 | a failed read stops at the first malformed line or second clock line, with that line's error |
| `SignalList.ParseListMeaning` | vcd2csv/vcd2csv.py:25-61 | the list is accepted exactly when no line is malformed and there is exactly one clock line; the clock is then first, followed by the other names in file order; otherwise the run stops at the first stopping line, or with NoClock |
| `SignalList.RangesMapKeys` | vcd2csv/vcd2csv.py:42-43 | a signal has ranges exactly when some line asks for them |
| `SignalList.RangesMapLastWins` | vcd2csv/vcd2csv.py:42-43 | a signal's ranges are those of the last line that asks for them |
| `SignalList.RangesMapLegal` | vcd2csv/vcd2csv.py:53-54 | every range kept has its high bit at or above its low bit |
| `SignalList.ParseListLegal` | vcd2csv/vcd2csv.py:53-61 | an accepted list names the clock first and keeps only legal ranges |
| `SignalList.RemoveFirstSpec` | vcd2csv/vcd2csv.py:60 | `list.remove(x)` deletes exactly the first occurrence of x and keeps the order of the rest |
| `SignalList.RemoveFirstMultiset` | vcd2csv/vcd2csv.py:60-61 | putting x back in front gives a permutation of the original list |
| `SignalList.ClockMovedToFront` | vcd2csv/vcd2csv.py:59-61 | after the move, no name is gained or lost, and the other names keep their file order |
| `SignalList.ExampleRangedLine` | vcd2csv/vcd2csv.py:42-52 | the line `foo [3:0] 7` asks for the ranges 3..0 and 7..7 of foo, in that order |
| `Clock.InferClock` | vcd2csv/vcd2csv.py:76-87 | the scan loop returns ClockGeometry, whose meaning GeometryMeaning states |
| `Clock.ScanFromMeaning` | vcd2csv/vcd2csv.py:79-87 | a scan started before any edge finds what the whole clock's first rising edge gives, or stops with the error of the first entry that stops it |
| `Clock.GeometryMeaning` | vcd2csv/vcd2csv.py:76-87 | the geometry is found exactly when the first entry reading 1 has an entry two places after it; it is then that entry's time and the time to that later entry; otherwise ClockTooShort, BadClockValue (an unreadable value before any edge) or NoRisingEdge, each exactly when its condition holds |
| `Clock.GeometryAtEdge` | vcd2csv/vcd2csv.py:79-87 | knowing the first rising edge determines the outcome: its time and period, or ClockTooShort when no entry lies two places after it |
| `Clock.LaterValuesUnread` | vcd2csv/vcd2csv.py:79-83 | the scan stops at the first rising edge: changing the value of any later entry, even to one `int()` refuses, leaves the outcome unchanged |
| `Clock.FirstEdgeUnique` | vcd2csv/vcd2csv.py:79-83 | the first rising edge is unique |
| `Clock.InferClockExample` | vcd2csv/vcd2csv.py:76-87 | the clock 0,1,0,1,0 at times 0,5,10,15,20 has its first rising edge at 5 and a period of 10 |
| `Resample.CountIndeterminateIsOccurrences` | vcd2csv/vcd2csv.py:103-106 | the replacement count of a bit string is its number of x plus its number of z |
| `Resample.ScrubInPlace` | vcd2csv/vcd2csv.py:102-106 | the array ends as the string with every x and z turned to 0, and the count returned is the number of x and z replaced |
| `Resample.DecodeEntry` | vcd2csv/vcd2csv.py:102-107 | the decoded value is `int(scrubbed, 2)` and the count is the number of x and z in the entry |
| `Resample.DecodeMeaning` | vcd2csv/vcd2csv.py:102-107 | an entry decodes exactly when it is non-empty and made of 0, 1, x and z; its value lies below 2^len, and bit i is 1 exactly when the i-th character from the right is 1 |
| `Resample.CursorAtMeaning` | vcd2csv/vcd2csv.py:99-101 | every change up to the cursor happened at or before the instant, and the next change, if any, happens after it |
| `Resample.CursorUnique` | vcd2csv/vcd2csv.py:99-101 | those two properties pin the cursor down |
| `Resample.CursorMonotone` | vcd2csv/vcd2csv.py:99-101 | a later instant never moves the cursor back |
| `Resample.CursorIsLastBefore` | vcd2csv/vcd2csv.py:99-101 | on a chronological trace the cursor is the last entry at or before the instant, or entry 0 when no later entry is |
| `Resample.SettledIff` | vcd2csv/vcd2csv.py:99-108 | the cursor rests on the final entry exactly when the last change is at or before the instant |
| `Resample.InstantIsLinear` | vcd2csv/vcd2csv.py:96-112 | cycle k is sampled at the first rising edge plus k periods |
| `Resample.CycleCountFormula` | vcd2csv/vcd2csv.py:108-112 | a signal's last cycle is the time from the first edge to its last change, in periods, rounded up (0 when that change is no later than the edge) |
| `Resample.CycleCountIsFirstSettled` | vcd2csv/vcd2csv.py:108-112 | cycle k has seen every change exactly from that last cycle on |
| `Resample.SampleRunMeaning` | vcd2csv/vcd2csv.py:99-107 | a run of cycles succeeds exactly when every cycle's entry decodes; it then holds one value per cycle, that cycle's decoded value |
| `Resample.SampleCycle` | vcd2csv/vcd2csv.py:99-107 | the cursor loop stops on the entry in effect at the cycle's instant; the value and count are its decoding |
| `Resample.Cycle` | vcd2csv/vcd2csv.py:99-112 | one pass of the loop keeps the walk's invariant (samples so far, cursor, x/z count, running maximum) or ends with the error the signal fails with; while a change is pending, time strictly advances towards the last change |
| `Resample.WalkTrace` | vcd2csv/vcd2csv.py:96-112 | the loop over a trace of two or more entries yields the signal's per-cycle trace; `max_clock` becomes the larger of its old value and the last cycle; `xz_count` grows by the replacements in the sampled entries |
| `Resample.ResampleSignal` | vcd2csv/vcd2csv.py:93-114 | the same for any trace, with the one-entry and empty-trace cases of line 114 |
| `Resample.SignalSamplesNonEmpty` | vcd2csv/vcd2csv.py:113-114 | a resampled signal has at least one value |
| `Resample.SignalSamplesShape` | vcd2csv/vcd2csv.py:96-114 | value k is the decoded entry in effect at cycle k, and the last value decodes the final entry; a one-entry trace is that entry read in base 2 |
| `Resample.ResampleExample` | vcd2csv/vcd2csv.py:96-114 | `(0,"00"), (12,"1x")` sampled from 5 every 10 gives 0 then 2, with one x replaced |
| `Traces.ResampleOne` | vcd2csv/vcd2csv.py:94-114 | one signal's step is the one ResampleNamesOutcome, ResampledContents and ResampledKeys state the meaning of: a missing name stops the phase with its KeyError, otherwise the signal's per-cycle trace is stored under its name |
| `Traces.ResampleAll` | vcd2csv/vcd2csv.py:93-114 | the loop over the listed signals yields exactly ResampleNames |
| `Traces.FailureSticks` | vcd2csv/vcd2csv.py:93-114 | once a signal fails, the whole phase fails with its error |
| `Traces.ResampleNamesOutcome` | vcd2csv/vcd2csv.py:93-114 | the phase succeeds exactly when no listed signal is missing or fails; otherwise it stops with the error of the first one that does |
| `Traces.ResampledKeys` | vcd2csv/vcd2csv.py:91-94 | afterwards, exactly the listed signals have a trace |
| `Traces.ResampledContents` | vcd2csv/vcd2csv.py:94-114 | each stored trace is that signal's per-cycle trace |
| `Traces.ResampledLengths` | vcd2csv/vcd2csv.py:108-114 | each stored trace has between 1 and `max_clock + 1` values |
| `Traces.ResampledLongest` | vcd2csv/vcd2csv.py:108-111 | `max_clock` is the last index of the longest trace, and 0 when no signal is listed |
| `Traces.PaddedMeaning` | vcd2csv/vcd2csv.py:117-118 | padding yields max(len, target) values; the original values come first and every added value equals the last one |
| `Traces.PaddedIdempotent` | vcd2csv/vcd2csv.py:117-118 | padding an already padded trace changes nothing |
| `Traces.PadTrace` | vcd2csv/vcd2csv.py:117-118 | the append loop yields the padded trace |
| `Traces.PadAll` | vcd2csv/vcd2csv.py:115-118 | every listed signal's trace is replaced by its padding; other traces and the set of keys are unchanged; the result is PadMap |
| `Traces.PaddedTraces` | vcd2csv/vcd2csv.py:90-118 | after resampling and padding, every listed signal has exactly `max_clock + 1` values: its resampled ones, then copies of the last |
| `Table.RangedColumnsMeaning` | vcd2csv/vcd2csv.py:134-137 | a ranged signal has one column per range, in declaration order |
| `Table.ColumnsOrigin` | vcd2csv/vcd2csv.py:129-137 | every column belongs to a listed signal; a ranged column carries one of that signal's ranges, and a whole-signal column belongs to a signal with no ranges |
| `Table.AppendRangeNames` | vcd2csv/vcd2csv.py:134-137 | the range loop appends `sig[H:L]`, `d_sig[H:L]` for each range, in order |
| `Table.AppendSignalNames` | vcd2csv/vcd2csv.py:130-137 | one signal appends its name pair, or a pair per range |
| `Table.BuildHeader` | vcd2csv/vcd2csv.py:128-137 | the header loop yields Header |
| `Table.HeaderShape` | vcd2csv/vcd2csv.py:128-137 | the header is `Cycle`, `Global_Distance`, then each column's name at 2+2j and its `d_` name at 3+2j |
| `Table.HeaderExample` | vcd2csv/vcd2csv.py:128-137 | foo with ranges 3..0 and 7..7 gives `foo[3:0]`, `d_foo[3:0]`, `foo[7:7]`, `d_foo[7:7]` |
| `Table.SumHamming` | vcd2csv/vcd2csv.py:144-148 | the loop sums the full-width distance of every listed signal between cycles i-1 and i |
| `Table.MaskedPair` | vcd2csv/vcd2csv.py:159-168 | one range's cells are those RangesLaid places under the range's column and ColumnBounds bounds: the masked value below 2^(H-L+1), a distance of at most H-L+1 that is 0 exactly when the value did not change, or NegativeShift for a negative low bit |
| `Table.AppendRanges` | vcd2csv/vcd2csv.py:158-168 | the range loop appends the pairs of every range to the row so far, or stops at the first negative low bit |
| `Table.AppendSignal` | vcd2csv/vcd2csv.py:150-168 | one signal appends the cells SignalLaid places under that signal's columns: its value and distance, or the pairs of its ranges |
| `Table.BuildRow` | vcd2csv/vcd2csv.py:140-168 | the row loop yields Row |
| `Table.BuildTable` | vcd2csv/vcd2csv.py:139-169 | the cycle loop yields every row from 0 to `max_clock`, or the first row's error |
| `Table.RangesLaid` | vcd2csv/vcd2csv.py:158-168 | a signal's range cells fail exactly when some low bit is negative, with NegativeShift; otherwise they hold each ranged column's value and local distance |
| `Table.SignalLaid` | vcd2csv/vcd2csv.py:150-168 | the same for one signal's columns |
| `Table.RowCellsLaid` | vcd2csv/vcd2csv.py:150-168 | the same for the columns of all listed signals |
| `Table.RowLayout` | vcd2csv/vcd2csv.py:139-168 | row i fails exactly when some range has a negative low bit; otherwise it holds i, the global distance, then each column's value and local distance where the header names them |
| `Table.RowWidth` | vcd2csv/vcd2csv.py:128-168 | every row is exactly as wide as the header |
| `Table.FirstRowZero` | vcd2csv/vcd2csv.py:139-168 | in row 0 the global distance and every local distance are 0 |
| `Table.ColumnBounds` | vcd2csv/vcd2csv.py:150-168 | a ranged value lies below 2^(H-L+1) and its local distance is at most H-L+1; a local distance after cycle 0 is 0 exactly when the column's value did not change |
| `Table.GlobalDistanceZeroIff` | vcd2csv/vcd2csv.py:143-149 | after cycle 0, the global distance is 0 exactly when no listed signal changed value |
| `Table.GlobalIsSumOfLocals` | vcd2csv/vcd2csv.py:143-156 | with no bit ranges asked for, the global distance is the sum of the row's local distances |
| `Table.GlobalDiffersWithRanges` | vcd2csv/vcd2csv.py:143-168 | a lone signal whose value changes but keeps its bit 0 (0 to 2, say), read through the range `[0:0]`, has a non-zero global distance while its row's only local distance is 0 |
| `Table.RowsOutcome` | vcd2csv/vcd2csv.py:139-169 | the first n rows fail exactly when n > 0 and some range has a negative low bit; otherwise there are n rows and row i is Row(i) |
| `Table.TableOutcome` | vcd2csv/vcd2csv.py:139-169 | the table has `max_clock + 1` rows, row i being Row(i), or fails with NegativeShift exactly when some range has a negative low bit |
| `Convert.PaddedReady` | vcd2csv/vcd2csv.py:115-118 | after padding, every listed signal has exactly `max_clock + 1` values |
| `Convert.LayoutShaped` | vcd2csv/vcd2csv.py:128-169 | the header and rows of padded traces form a well-shaped table, or fail with NegativeShift exactly when some range has a negative low bit |
| `Convert.TabulatedOutcome` | vcd2csv/vcd2csv.py:90-169 | from resampling on, the run succeeds exactly when every listed signal resamples and no range has a negative low bit; the table is then well shaped, with the header of the listed signals and the phase's x/z count |
| `Convert.ClockedAtGeometry` | vcd2csv/vcd2csv.py:75-169 | once the clock's first edge and period are found, the run succeeds exactly when every signal resamples from that edge at that period and no range has a negative low bit |
| `Convert.ConvertedOutcome` | vcd2csv/vcd2csv.py:25-169 | the run succeeds exactly when the list is accepted, the clock is in the waveform, its geometry is found, every other listed signal resamples from its first edge at its period, and no range has a negative low bit; the table written is then well shaped, under the header of the listed signals other than the clock |
| `Convert.Lay` | vcd2csv/vcd2csv.py:128-169 | the result is Layout: the header is Header and the rows are TableRows of the padded traces; the table is well shaped, or fails exactly when some range has a negative low bit |
| `Convert.PadAndLay` | vcd2csv/vcd2csv.py:115-169 | the result is the layout of the resampled traces padded as PadMap pads them, with the phase's x/z count |
| `Convert.Tabulate` | vcd2csv/vcd2csv.py:90-169 | the result is Tabulated: resampling errors propagate unchanged, then the table of the padded traces, failing exactly when some range has a negative low bit |
| `Convert.Run` | vcd2csv/vcd2csv.py:25-169 | the result is Converted, the stages chained with the first failing stage's error; ConvertedOutcome states when it succeeds, and a table it writes is well shaped |

## Left out

- Command-line checking (lines 17-23): the model starts from the inputs
  themselves.
- Reading the signal-list file (lines 28-31): each line arrives already split
  on white space. `str.split()` never yields an empty token, so `Token` is a
  non-empty string.
- `parse_vcd` (lines 5 and 65) and the `Verilog_VCD` module: that module is
  not part of this model.
- `fullname_mappings` (lines 69-73): the waveform is given as a map keyed by
  the names the list uses. A name missing from it gives `SignalNotFound`, as
  the `KeyError` of lines 76 and 95 would.
- Writing the CSV file (lines 125-126, 138 and 169): the model stops at the
  header and rows as lists of cells. If a row fails part-way, the script has
  already written the header and earlier rows; the model returns only the
  error.
- Printed messages, including the x/z warning of lines 120-121: only the
  count `xz_count` is kept (`Convert.Output.xz`).
- Python 2 `bytearray` and `str` conversions: bit strings are `seq<char>`.
  `int()` is modelled on white-space-free strings: an optional sign, then
  decimal digits.
- Numerals.ParseBinary: models `int(s, 2)` on strings of 0 and 1 only.
  Python also accepts a sign, a `0b` prefix and white space around the
  digits. The waveform's bit strings carry none of these, so
  `Numerals.ParseBinaryMeaning` describes this reader, not all of `int(s, 2)`.
- Crash messages: every Python exception and every `exit()` is one `Error`
  constructor. The model does not distinguish a `ValueError` from an
  `IndexError` beyond that constructor.
