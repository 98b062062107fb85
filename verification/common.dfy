/** Values shared by every stage of the converter. */
module Common {

  datatype Option<+T> = None | Some(value: T)

  /** Every way a run of the converter stops without producing a table.
      The script stops by calling exit() or by an uncaught Python exception;
      each such stop is one constructor here. */
  datatype Error =
    | BlankLine              // a signal-list line with no token (IndexError)
    | MultipleClocks         // a second `<name> CLOCK` line
    | NoClock                // no `<name> CLOCK` line at all
    | IncompleteRange        // a range token starting with `[` but not ending with `]`
    | NotAnInteger           // a bit index that int() refuses (ValueError)
    | IllegalRange           // a range whose high bit is below its low bit (TypeError)
    | SignalNotFound(name: string)  // a requested signal absent from the waveform (KeyError)
    | BadClockValue          // a clock value int() refuses while looking for the edge
    | NoRisingEdge           // the clock never reads 1
    | ClockTooShort          // no entry two places after the first rising edge (IndexError)
    | BadBitString           // a value that int(..., 2) refuses
    | EmptyTrace             // a signal whose trace has no entry at all (IndexError)
    | NeverAdvances          // sampling time does not move forward: the script loops forever
    | NegativeShift          // a range with a negative low bit (`>>` raises ValueError)

  datatype Result<+T> = Ok(value: T) | Err(error: Error)

  /** One value change of a waveform trace: a timestamp and the raw bit string,
      most significant bit first, with characters 0, 1, x or z. */
  datatype Entry = Entry(time: int, bits: string)
}
