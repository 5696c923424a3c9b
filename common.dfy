/** Values shared by every part of the model. */
module Common {

  /** A Java reference that may be null: `None` stands for `null`. */
  datatype Option<+T> = None | Some(value: T)

  /** One byte of chunk payload. */
  newtype byte = x: int | 0 <= x < 256

  /** The contents of a `byte[]` or of an `InputStream` read to its end. */
  type Bytes = seq<byte>

  /** Concatenation of payloads, in order (what `ByteArrayOutputStream.write` accumulates). */
  function Flatten(parts: seq<Bytes>): Bytes
  {
    if |parts| == 0 then [] else Flatten(parts[..|parts| - 1]) + parts[|parts| - 1]
  }
}
