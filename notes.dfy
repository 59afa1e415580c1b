/** Values shared by every stage of the .mbseq pipeline. */
module Notes {

  /** One step of a sequence: a MIDI pitch, or the rest marker written `x`. */
  datatype Note = Value(pitch: int) | Rest

  /** The ways a pitch transform can fail. */
  datatype Error =
    | TooHigh  // "Transpose would exceed MIDI value 125"
    | TooLow   // "Transpose would undercut MIDI value 1"
    | NoNote   // no pitch to measure: the IndexError or TypeError nobody catches

  /** A transform's result: the new value, or the error that stopped it. */
  datatype Outcome<T> = Ok(value: T) | Fail(error: Error)

  datatype Option<T> = None | Some(value: T)

  /** The highest and lowest pitch a transform may produce. */
  const MaxPitch: int := 125
  const MinPitch: int := 1

  /** The number of pattern slots in a file. */
  const SlotCount: int := 8
}
