/**
 * The SCALE stream the hand-written codecs of expand/types.go work on: a
 * decoder that reads from a byte buffer and advances, an encoder that appends,
 * and the library's compact-integer codec, which this model takes as given.
 */
module Scale {
  import opened Bytes

  /** Why a decode step failed. */
  datatype CodecError =
    | ShortRead(wanted: nat, available: nat)   // fewer bytes left than the read asked for
    | CompactFailed                            // the library's compact decoder refused the input
    | ElementFailed                            // the library's struct decoder refused an element
    | VecTooLong(length: int)                  // declared vector length above the ceiling
    | NotStruct                                // vector element type is not a struct
    | UnsupportedType(tag: int)                // MultiAddress discriminant outside 0..3

  /** The outcome of a decode step and how many bytes of its input it consumed. */
  datatype Decoded<+T> = Decoded(value: T, used: nat) | Failed(used: nat)

  /**
   * The library's compact ("UCompact") codec, which is not part of this model:
   * `decode` reads a compact integer at the front of its input, `encode`
   * produces the bytes of one.
   */
  datatype Compact = Compact(decode: seq<byte> -> Decoded<nat>, encode: nat -> seq<byte>)

  /** What the model assumes of the compact codec: decoding an encoding gives it back, whatever follows. */
  ghost predicate Lawful(c: Compact)
  {
    forall n: nat, rest: seq<byte> {:trigger c.decode(c.encode(n) + rest)} ::
      c.decode(c.encode(n) + rest) == Decoded(n, |c.encode(n)|)
  }

  function Min(a: nat, b: nat): nat
  {
    if a <= b then a else b
  }

  /** A step of a library decoder run on `input`, its consumption capped by what is there. */
  function Step<T>(f: seq<byte> -> Decoded<T>, input: seq<byte>): (r: Decoded<T>)
    ensures r.used <= |input|
    ensures r.Decoded? <==> f(input).Decoded?
    ensures r.Decoded? ==> r.value == f(input).value
  {
    match f(input)
    case Decoded(v, n) => Decoded(v, Min(n, |input|))
    case Failed(n) => Failed(Min(n, |input|))
  }

  /**
   * A reader over a byte buffer. Reads follow scale.Decoder.Read over a
   * bytes.Reader: a read of n bytes either gets all n, or takes what is left
   * and fails.
   */
  class Decoder {
    const input: seq<byte>
    var pos: nat

    ghost predicate Valid()
      reads this
    {
      pos <= |input|
    }

    function Remaining(): (r: seq<byte>)
      reads this
      requires Valid()
      ensures |r| == |input| - pos
    {
      input[pos..]
    }

    constructor (input: seq<byte>)
      ensures Valid() && this.input == input && pos == 0
    {
      this.input := input;
      pos := 0;
    }

    /** decoder.Read of an n-byte buffer. */
    method Read(n: nat) returns (data: seq<byte>, ok: bool)
      requires Valid() && n > 0
      modifies this
      ensures Valid()
      ensures ok <==> n <= |old(Remaining())|
      ensures ok ==> data == old(Remaining())[..n] && pos == old(pos) + n
      ensures !ok ==> pos == |input|
    {
      if pos + n <= |input| {
        data := input[pos..pos + n];
        pos := pos + n;
        ok := true;
      } else {
        data := input[pos..];
        pos := |input|;
        ok := false;
      }
    }

    /** decoder.ReadOneByte. */
    method ReadOneByte() returns (b: byte, ok: bool)
      requires Valid()
      modifies this
      ensures Valid()
      ensures ok <==> old(Remaining()) != []
      ensures ok ==> b == old(Remaining())[0] && pos == old(pos) + 1
      ensures !ok ==> pos == old(pos)
    {
      if pos < |input| {
        b := input[pos];
        pos := pos + 1;
        ok := true;
      } else {
        b := 0;
        ok := false;
      }
    }

    /** decoder.Decode into a library type, whose decoder is `f`. */
    method DecodeWith<T>(f: seq<byte> -> Decoded<T>) returns (r: Decoded<T>)
      requires Valid()
      modifies this
      ensures Valid()
      ensures r == Step(f, old(Remaining()))
      ensures pos == old(pos) + r.used
    {
      r := Step(f, input[pos..]);
      pos := pos + r.used;
    }
  }

  /** An encoder writing into a growing buffer; writes to a bytes.Buffer cannot fail. */
  class Encoder {
    var output: seq<byte>

    constructor ()
      ensures output == []
    {
      output := [];
    }

    method Write(bs: seq<byte>)
      modifies this
      ensures output == old(output) + bs
    {
      output := output + bs;
    }
  }
}
