/** Bytes, 16-bit samples and the browser `Blob` the audio encoders produce. */
module Bytes {

  /** One octet, as stored by `Uint8Array` and `DataView.setUint8`. */
  type Byte = b: int | 0 <= b < 0x100

  /** One signed 16-bit linear PCM sample, as held by `Int16Array`. */
  type Sample = x: int | -0x8000 <= x < 0x8000

  /** Concatenation of a list of sequences, in order. */
  function Concat<T>(parts: seq<seq<T>>): seq<T>
    decreases |parts|
  {
    if |parts| == 0 then [] else Concat(parts[..|parts| - 1]) + parts[|parts| - 1]
  }

  /** A `Blob` built from a list of parts and a MIME type. */
  datatype Blob = Blob(parts: seq<seq<Byte>>, mime: string) {
    /** The bytes a reader of the blob sees: the parts back to back. */
    function Content(): seq<Byte> {
      Concat(parts)
    }
  }

  lemma {:induction false} ConcatAppend<T>(xs: seq<seq<T>>, ys: seq<seq<T>>)
    ensures Concat(xs + ys) == Concat(xs) + Concat(ys)
    decreases |ys|
  {
    if |ys| == 0 {
      assert xs + ys == xs;
    } else {
      var ys' := ys[..|ys| - 1];
      assert (xs + ys)[..|xs + ys| - 1] == xs + ys';
      ConcatAppend(xs, ys');
    }
  }
}
