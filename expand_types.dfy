/**
 * The hand-written codecs of expand/types.go. Each type is a class whose
 * Decode advances a shared Decoder and sets the receiver's fields, as the Go
 * methods do; pure functions beside them say what a decode reads and an
 * encode writes, and the lemmas relate the two directions.
 */
module Expand {
  import opened Bytes
  import opened Wrappers
  import opened Scale
  import opened Chain

  // ===========================================================================
  // Balance

  /** The 32 hex digits the decoder compares against: sixteen 0xff bytes. */
  const AllOnesHex: string := "ffffffffffffffffffffffffffffffff"

  lemma ZerosAreNotAllOnes()
    ensures Hex(Zeros(16)) != AllOnesHex
  {
    assert Hex(Zeros(16))[0] == HexByte(0)[0] == '0';
  }

  class Balance {
    var reader: seq<byte>   // the contents of Reader
    var value: int

    constructor ()
      ensures reader == [] && value == 0
    {
      reader := [];
      value := 0;
    }

    /**
     * Balance.Decode as written: it keeps the 16 bytes it reads in Reader but
     * tests the sentinel on, and takes the value of, a fresh zeroed buffer,
     * so a successful decode always yields 0.
     */
    method Decode(d: Decoder) returns (err: Option<CodecError>)
      requires d.Valid()
      modifies this, d
      ensures d.Valid()
      ensures err.None? <==> 16 <= |old(d.Remaining())|
      ensures err.None? ==> reader == old(d.Remaining())[..16] && d.pos == old(d.pos) + 16 && value == 0
      ensures err.Some? ==> err == Some(ShortRead(16, |old(d.Remaining())|))
      ensures err.Some? ==> reader == [] && value == old(value) && d.pos == |d.input|
    {
      reader := [];
      var available := |d.Remaining()|;
      var data, ok := d.Read(16);
      if !ok {
        return Some(ShortRead(16, available));
      }
      reader := reader + data;
      var c := Zeros(16);
      if Hex(c) == AllOnesHex {
        value := 0;
        return None;
      }
      LittleEndianZeros(16);
      value := LittleEndian(c);
      return None;
    }
  }

  /** What Balance.Decode evidently meant: the 16 bytes read as a little-endian u128, all-ones read as 0. */
  function IntendedBalanceValue(data: seq<byte>): (v: nat)
    requires |data| == 16
    ensures v < TWO_128
    ensures Hex(data) == AllOnesHex ==> v == 0
  {
    Pow256Values();
    if Hex(data) == AllOnesHex then 0 else LittleEndian(data)
  }

  lemma {:induction false} HexAllOnes(k: nat)
    ensures Hex(seq(k, _ => 0xff)) == seq(2 * k, _ => 'f')
  {
    if k > 0 {
      assert seq(k, _ => 0xff)[1..] == seq(k - 1, _ => 0xff);
      HexAllOnes(k - 1);
      assert HexByte(0xff) == "ff";
      assert seq(2 * k, _ => 'f') == "ff" + seq(2 * (k - 1), _ => 'f');
    }
  }

  /** The sixteen bytes 0xff, whose hex is the sentinel. */
  lemma AllOnesBytes()
    ensures Hex(seq(16, _ => 0xff)) == AllOnesHex
  {
    HexAllOnes(16);
  }

  /** The intended decoding reads every u128 but the sentinel back from its little-endian bytes. */
  lemma IntendedBalanceRoundTrip(n: nat)
    requires n < TWO_128 - 1
    ensures IntendedBalanceValue(LittleEndianBytes(n, 16)) == n
  {
    Pow256Values();
    var bs := LittleEndianBytes(n, 16);
    LittleEndianOfBytes(n, 16);
    if Hex(bs) == AllOnesHex {
      AllOnesBytes();
      HexInjective(bs, seq(16, _ => 0xff));
      BytesOfLittleEndian(bs);
      LittleEndianMax16();
      assert false;
    }
  }

  lemma {:induction false} LittleEndianAllOnes(k: nat)
    ensures LittleEndian(seq(k, _ => 0xff)) == Pow256(k) - 1
  {
    if k > 0 {
      assert seq(k, _ => 0xff)[1..] == seq(k - 1, _ => 0xff);
      LittleEndianAllOnes(k - 1);
    }
  }

  lemma LittleEndianMax16()
    ensures LittleEndian(seq(16, _ => 0xff)) == TWO_128 - 1
  {
    LittleEndianAllOnes(16);
    Pow256Values();
  }

  /**
   * The discrepancy: the bytes of the integer 1 decode to 0 as written,
   * where the intended decoding gives 1.
   */
  method BalanceOfOne() returns (decoded: int, intended: nat)
    ensures decoded == 0 && intended == 1
  {
    var one := LittleEndianBytes(1, 16);
    var d := new Decoder(one);
    var b := new Balance();
    var err := b.Decode(d);
    decoded := b.value;
    LittleEndianOfBytes(1, 16);
    IntendedBalanceRoundTrip(1);
    intended := IntendedBalanceValue(one);
  }

  // ===========================================================================
  // Vec

  /** The result of decoding up to n elements one after another. */
  datatype ElementRun<T> = ElementRun(values: seq<T>, used: nat, ok: bool)

  /**
   * The first n elements decoded by `element` from the front of `input`, in
   * stream order, stopping at the first element that fails.
   */
  function Elements<T>(input: seq<byte>, element: seq<byte> -> Decoded<T>, n: nat): (r: ElementRun<T>)
    ensures r.used <= |input|
    ensures r.ok ==> |r.values| == n
    ensures !r.ok ==> |r.values| < n
  {
    if n == 0 then ElementRun([], 0, true)
    else
      var prev := Elements(input, element, n - 1);
      if !prev.ok then prev
      else match Step(element, input[prev.used..])
        case Decoded(v, k) => ElementRun(prev.values + [v], prev.used + k, true)
        case Failed(k) => ElementRun(prev.values, prev.used + k, false)
  }

  /** Once an element has failed, asking for more elements changes nothing. */
  lemma {:induction false} ElementsStop<T>(input: seq<byte>, element: seq<byte> -> Decoded<T>, m: nat, n: nat)
    requires m <= n && !Elements(input, element, m).ok
    ensures Elements(input, element, n) == Elements(input, element, m)
    decreases n
  {
    if n > m {
      ElementsStop(input, element, m, n - 1);
    }
  }

  /** The ceiling on a vector's declared length. */
  const MaxVecLength := 5000

  /** The length ProcessVec compares and loops on: int(count.Int64()). */
  function VecLength(count: nat): (r: int)
    ensures count <= MaxVecLength ==> r == count
    ensures MaxVecLength < r ==> count > MaxVecLength
    ensures (r - count) % TWO_64 == 0 && -(TWO_63 as int) <= r < TWO_63
  {
    ToInt64(count)
  }

  /** What ProcessVec reads: the elements it appends, the bytes it consumes, the error it reports. */
  datatype VecOutcome<T> = VecOutcome(values: seq<T>, used: nat, err: Option<CodecError>)

  /**
   * ProcessVec on the bytes ahead of the decoder: a compact count read as an
   * int64, the ceiling check, then the elements one after another.
   */
  function ParseVec<T>(input: seq<byte>, c: Compact, isStruct: bool, element: seq<byte> -> Decoded<T>): (r: VecOutcome<T>)
    ensures r.used <= |input|
    ensures r.err.None? ==> |r.values| <= MaxVecLength
    ensures r.err.None? && c.decode(input).Decoded? && VecLength(c.decode(input).value) > 0 ==> |r.values| == VecLength(c.decode(input).value)
    ensures r.err.Some? ==> |r.values| < MaxVecLength
  {
    match Step(c.decode, input)
    case Failed(k) => VecOutcome([], k, Some(CompactFailed))
    case Decoded(count, k) =>
      var length := VecLength(count);
      if length > MaxVecLength then VecOutcome([], k, Some(VecTooLong(length)))
      else if length <= 0 then VecOutcome([], k, None)
      else if !isStruct then VecOutcome([], k, Some(NotStruct))
      else
        var run := Elements(input[k..], element, length);
        VecOutcome(run.values, k + run.used, if run.ok then None else Some(ElementFailed))
  }

  /**
   * What the ceiling check evidently meant: a count above the ceiling is
   * refused, whatever its size.
   */
  function IntendedVecLength(count: nat): (r: Result<nat, CodecError>)
    ensures r.Ok? <==> count <= MaxVecLength
    ensures r.Ok? ==> r.value == count
  {
    if count > MaxVecLength then Err(VecTooLong(count)) else Ok(count)
  }

  /** Below 2^63 the int64 reading is the count itself, so the two agree up to the ceiling. */
  lemma VecLengthAgrees(count: nat)
    requires count <= MaxVecLength
    ensures VecLength(count) == count && IntendedVecLength(count) == Ok(count)
  {
  }

  /**
   * The discrepancy: the count 2^64 + 1 passes the ceiling check as the
   * length 1, and the count 2^63 as a negative length, which decodes as an
   * empty vector without error; the intended check refuses both.
   */
  lemma VecLengthWraps()
    ensures VecLength(TWO_64 + 1) == 1 && IntendedVecLength(TWO_64 + 1).Err?
    ensures VecLength(TWO_63) < 0 && IntendedVecLength(TWO_63).Err?
  {
  }

  /**
   * The ceiling is checked before any element: a length above 5000 fails
   * having consumed only the count, and a length of exactly 5000 passes it.
   */
  lemma VecCeiling<T>(input: seq<byte>, c: Compact, isStruct: bool, element: seq<byte> -> Decoded<T>)
    requires Step<nat>(c.decode, input).Decoded?
    ensures var count := Step<nat>(c.decode, input);
      VecLength(count.value) > MaxVecLength <==>
        ParseVec(input, c, isStruct, element) == VecOutcome([], count.used, Some(VecTooLong(VecLength(count.value))))
  {
  }

  /** ProcessVec with the intended ceiling: the count itself is compared, so no count above 5000 gets through. */
  function IntendedParseVec<T>(input: seq<byte>, c: Compact, isStruct: bool, element: seq<byte> -> Decoded<T>): (r: VecOutcome<T>)
    ensures r.used <= |input|
    ensures Step<nat>(c.decode, input).Decoded? && Step<nat>(c.decode, input).value > MaxVecLength ==>
      r == VecOutcome([], Step<nat>(c.decode, input).used, Some(VecTooLong(Step<nat>(c.decode, input).value)))
    ensures r.err.None? && Step<nat>(c.decode, input).Decoded? ==> |r.values| == Step<nat>(c.decode, input).value
  {
    match Step<nat>(c.decode, input)
    case Failed(k) => VecOutcome([], k, Some(CompactFailed))
    case Decoded(count, k) =>
      match IntendedVecLength(count)
      case Err(e) => VecOutcome([], k, Some(e))
      case Ok(length) =>
        if length == 0 then VecOutcome([], k, None)
        else if !isStruct then VecOutcome([], k, Some(NotStruct))
        else
          var run := Elements(input[k..], element, length);
          VecOutcome(run.values, k + run.used, if run.ok then None else Some(ElementFailed))
  }

  /** For every count below 2^63 the code as written and the intended ceiling decode alike. */
  lemma ParseVecAgreesBelowWrap<T>(input: seq<byte>, c: Compact, isStruct: bool, element: seq<byte> -> Decoded<T>)
    requires Step<nat>(c.decode, input).Failed? || Step<nat>(c.decode, input).value < TWO_63
    ensures ParseVec(input, c, isStruct, element) == IntendedParseVec(input, c, isStruct, element)
  {
  }

  /** With such a count, ProcessVec as written succeeds having read no element at all. */
  lemma HugeCountDecodesEmpty<T>(input: seq<byte>, c: Compact, isStruct: bool, element: seq<byte> -> Decoded<T>)
    requires c.decode(input).Decoded? && c.decode(input).value == TWO_63
    ensures ParseVec(input, c, isStruct, element).err == None
    ensures ParseVec(input, c, isStruct, element).values == []
  {
    VecLengthWraps();
  }

  class Vec<T> {
    var value: seq<T>

    constructor ()
      ensures value == []
    {
      value := [];
    }

    /**
     * Vec.ProcessVec: a compact count, then that many elements decoded and
     * appended in stream order. `isStruct` is whether subType is a struct
     * kind, `element` the library's decoder for it.
     */
    method ProcessVec(d: Decoder, c: Compact, isStruct: bool, element: seq<byte> -> Decoded<T>)
      returns (err: Option<CodecError>)
      requires d.Valid()
      modifies this, d
      ensures d.Valid()
      ensures
        var r := ParseVec(old(d.Remaining()), c, isStruct, element);
        err == r.err && value == old(value) + r.values && d.pos == old(d.pos) + r.used
    {
      ghost var start := d.Remaining();
      var count := d.DecodeWith(c.decode);
      if count.Failed? {
        return Some(CompactFailed);
      }
      var length := VecLength(count.value);
      if length > MaxVecLength {
        return Some(VecTooLong(length));
      }
      assert d.Remaining() == start[count.used..];
      err := AppendElements(d, isStruct, element, length);
    }

    /**
     * The element loop of ProcessVec: `length` elements appended in stream
     * order, stopping at the first failure; with !isStruct and a positive
     * length it fails before reading anything.
     */
    method AppendElements(d: Decoder, isStruct: bool, element: seq<byte> -> Decoded<T>, length: int)
      returns (err: Option<CodecError>)
      requires d.Valid()
      modifies this, d
      ensures d.Valid()
      ensures length <= 0 ==> err == None && value == old(value) && d.pos == old(d.pos)
      ensures length > 0 && !isStruct ==> err == Some(NotStruct) && value == old(value) && d.pos == old(d.pos)
      ensures length > 0 && isStruct ==>
        var run := Elements(old(d.Remaining()), element, length);
        && value == old(value) + run.values
        && d.pos == old(d.pos) + run.used
        && err == (if run.ok then None else Some(ElementFailed))
    {
      ghost var body := d.Remaining();
      ghost var base := d.pos;
      var i := 0;
      while i < length
        invariant 0 <= i && (i <= length || i == 0)
        invariant !isStruct ==> i == 0
        invariant d.Valid()
        invariant Elements(body, element, i).ok
        invariant value == old(value) + Elements(body, element, i).values
        invariant d.pos == base + Elements(body, element, i).used
      {
        if !isStruct {
          return Some(NotStruct);
        }
        assert d.Remaining() == body[Elements(body, element, i).used..];
        var r := d.DecodeWith(element);
        if r.Failed? {
          ElementsStop(body, element, i + 1, length);
          return Some(ElementFailed);
        }
        value := value + [r.value];
        i := i + 1;
      }
      return None;
    }
  }

  // ===========================================================================
  // Address (the legacy single-discriminant form)

  class Address {
    var accountLength: string
    var value: string

    constructor ()
      ensures accountLength == "" && value == ""
    {
      accountLength := "";
      value := "";
    }

    /**
     * Address.Decode. `noPalletIndices` is the NoPalletIndices option of the
     * serialisation settings. After the first byte is read, AccountLength is
     * its hex even when the rest of the read fails.
     */
    method Decode(d: Decoder, noPalletIndices: bool) returns (err: Option<CodecError>)
      requires d.Valid()
      modifies this, d
      ensures d.Valid()
      ensures old(d.Remaining()) == [] ==>
        err == Some(ShortRead(1, 0)) && accountLength == old(accountLength) && value == old(value) && d.pos == old(d.pos)
      ensures
        var input := old(d.Remaining());
        input != [] ==>
          && accountLength == Hex([input[0]])
          && if input[0] == 0xff && !noPalletIndices then
               if |input| >= 33 then err == None && value == Hex(input[1..33]) && d.pos == old(d.pos) + 33
               else err == Some(ShortRead(32, |input| - 1)) && value == old(value) && d.pos == |d.input|
             else
               if |input| >= 32 then err == None && value == Hex(input[..32]) && d.pos == old(d.pos) + 32
               else err == Some(ShortRead(31, |input| - 1)) && value == old(value) && d.pos == |d.input|
      ensures err.None? ==> |value| == 64 && |accountLength| == 2
    {
      ghost var input := d.Remaining();
      var al, ok := d.ReadOneByte();
      if !ok {
        return Some(ShortRead(1, 0));
      }
      assert d.Remaining() == input[1..];
      accountLength := Hex([al]);
      HexByteIsFF(al);
      if accountLength == "ff" && noPalletIndices == false {
        var available := |d.Remaining()|;
        var data, ok32 := d.Read(32);
        if !ok32 {
          return Some(ShortRead(32, available));
        }
        assert data == input[1..33];
        value := Hex(data);
        return None;
      }
      var available := |d.Remaining()|;
      var rest, ok31 := d.Read(31);
      if !ok31 {
        return Some(ShortRead(31, available));
      }
      assert [al] + rest == input[..32];
      value := Hex([al] + rest);
      return None;
    }
  }

  // ===========================================================================
  // U32

  /** binary.LittleEndian.Uint32 agrees with the little-endian value of the four bytes. */
  lemma LittleEndianFour(bs: seq<byte>)
    requires |bs| == 4
    ensures LittleEndian(bs) == bs[0] as int + bs[1] as int * 0x100 + bs[2] as int * 0x1_0000 + bs[3] as int * 0x100_0000
  {
    assert LittleEndian(bs[3..]) == bs[3] by {
      assert bs[3..][1..] == [];
    }
    assert bs[2..][1..] == bs[3..] && bs[1..][1..] == bs[2..];
    assert LittleEndian(bs[2..]) == bs[2] as int + 256 * bs[3] as int;
    assert LittleEndian(bs[1..]) == bs[1] as int + 256 * LittleEndian(bs[2..]);
  }

  class U32 {
    var value: U32Value

    constructor ()
      ensures value == 0
    {
      value := 0;
    }

    /** U32.Decode: four bytes, little-endian (binary.LittleEndian.Uint32). */
    method Decode(d: Decoder) returns (err: Option<CodecError>)
      requires d.Valid()
      modifies this, d
      ensures d.Valid()
      ensures err.None? <==> 4 <= |old(d.Remaining())|
      ensures err.None? ==> value == LittleEndian(old(d.Remaining())[..4]) && d.pos == old(d.pos) + 4
      ensures err.Some? ==> value == old(value) && d.pos == |d.input|
    {
      var available := |d.Remaining()|;
      var data, ok := d.Read(4);
      if !ok {
        return Some(ShortRead(4, available));
      }
      value := data[0] as int + data[1] as int * 0x100 + data[2] as int * 0x1_0000 + data[3] as int * 0x100_0000;
      LittleEndianFour(data);
      err := None;
    }
  }

  // ===========================================================================
  // MultiAddress

  type Bytes32 = s: seq<byte> | |s| == 32 witness Zeros(32)
  type Bytes20 = s: seq<byte> | |s| == 20 witness Zeros(20)

  /** The four arms of a MultiAddress, by discriminant 0, 1, 2, 3. */
  datatype MultiAddressValue =
    | AccountId(id: Bytes32)
    | Index(index: nat)
    | Address32(h256: Bytes32)
    | Address20(h160: Bytes20)
  {
    function Tag(): byte
    {
      match this
      case AccountId(_) => 0
      case Index(_) => 1
      case Address32(_) => 2
      case Address20(_) => 3
    }
  }

  /** The bytes Encode writes for an address of a supported type: the discriminant, then the arm. */
  function MultiAddressBytes(m: MultiAddressValue, c: Compact): seq<byte>
  {
    match m
    case AccountId(id) => [0] + id
    case Index(n) => [1] + c.encode(n)
    case Address32(h) => [2] + h
    case Address20(h) => [3] + h
  }

  /** A fixed-size read of n bytes as a decode step: all n, or everything that is left and a failure. */
  function Fixed(input: seq<byte>, n: nat): (r: Decoded<seq<byte>>)
    ensures r.used <= |input|
    ensures r.Decoded? <==> n <= |input|
    ensures r.Decoded? ==> r.value == input[..n] && r.used == n
  {
    if n <= |input| then Decoded(input[..n], n) else Failed(|input|)
  }

  /** What GenericMultiAddress.Decode reads from the bytes ahead of the decoder. */
  function ParseMultiAddress(input: seq<byte>, c: Compact): (r: Decoded<MultiAddressValue>)
    ensures r.used <= |input|
    ensures r.Decoded? ==> input != [] && input[0] == r.value.Tag()
    ensures input != [] && input[0] > 3 ==> r == Failed(1)
  {
    if input == [] then Failed(0)
    else
      var rest := input[1..];
      if input[0] == 0 then
        match Fixed(rest, 32)
        case Decoded(id, k) => Decoded(AccountId(id), 1 + k)
        case Failed(k) => Failed(1 + k)
      else if input[0] == 1 then
        match Step(c.decode, rest)
        case Decoded(n, k) => Decoded(Index(n), 1 + k)
        case Failed(k) => Failed(1 + k)
      else if input[0] == 2 then
        match Fixed(rest, 32)
        case Decoded(h, k) => Decoded(Address32(h), 1 + k)
        case Failed(k) => Failed(1 + k)
      else if input[0] == 3 then
        match Fixed(rest, 20)
        case Decoded(h, k) => Decoded(Address20(h), 1 + k)
        case Failed(k) => Failed(1 + k)
      else Failed(1)
  }

  /** Decoding what Encode wrote gives the address back and consumes exactly those bytes. */
  lemma MultiAddressRoundTrip(m: MultiAddressValue, c: Compact, rest: seq<byte>)
    requires Lawful(c)
    ensures ParseMultiAddress(MultiAddressBytes(m, c) + rest, c) == Decoded(m, |MultiAddressBytes(m, c)|)
  {
    var input := MultiAddressBytes(m, c) + rest;
    match m
    case AccountId(id) =>
      assert input[1..] == id + rest && (id + rest)[..32] == id;
    case Index(n) =>
      assert input[1..] == c.encode(n) + rest;
      assert c.decode(c.encode(n) + rest) == Decoded(n, |c.encode(n)|);
    case Address32(h) =>
      assert input[1..] == h + rest && (h + rest)[..32] == h;
    case Address20(h) =>
      assert input[1..] == h + rest && (h + rest)[..20] == h;
  }

  /** types.Address, the pre-MultiAddress address type ToAddress produces. */
  datatype ChainAddress = ChainAddress(isAccountID: bool, asAccountID: Bytes32, isAccountIndex: bool, asAccountIndex: nat)

  const EmptyChainAddress := ChainAddress(false, Zeros(32), false, 0)

  /** types.NewAccountID: copy(a[:], b) into a zeroed 32-byte array. */
  function NewAccountID(b: seq<byte>): (a: Bytes32)
    ensures |b| >= 32 ==> a == b[..32]
  {
    if |b| >= 32 then b[..32] else b + Zeros(32 - |b|)
  }

  class GenericMultiAddress {
    var accountId: Bytes32
    var index: nat
    var raw: seq<byte>
    var address32: Bytes32
    var address20: Bytes20
    var types: int

    constructor ()
      ensures accountId == Zeros(32) && index == 0 && raw == [] && address32 == Zeros(32)
      ensures address20 == Zeros(20) && types == 0
    {
      accountId, index, raw := Zeros(32), 0, [];
      address32, address20, types := Zeros(32), Zeros(20), 0;
    }

    /** The address the fields hold, read through `types`; None for an unsupported type. */
    function Value(): (v: Option<MultiAddressValue>)
      reads this
      ensures v.Some? <==> 0 <= types <= 3
      ensures v.Some? ==> v.value.Tag() == types
    {
      if types == 0 then Some(AccountId(accountId))
      else if types == 1 then Some(Index(index))
      else if types == 2 then Some(Address32(address32))
      else if types == 3 then Some(Address20(address20))
      else None
    }

    /**
     * GenericMultiAddress.Decode: the discriminant byte, then the arm it
     * selects. On success only that arm's field and `types` change; on any
     * failure `types` keeps its value.
     */
    method Decode(d: Decoder, c: Compact) returns (err: Option<CodecError>)
      requires d.Valid()
      modifies this, d
      ensures d.Valid()
      ensures
        var r := ParseMultiAddress(old(d.Remaining()), c);
        && d.pos == old(d.pos) + r.used
        && (err.None? <==> r.Decoded?)
        && (r.Decoded? ==> Value() == Some(r.value))
        && (r.Failed? ==> types == old(types))
      ensures raw == old(raw)
      ensures err.None? && types != 0 ==> accountId == old(accountId)
      ensures err.None? && types != 1 ==> index == old(index)
      ensures err.None? && types != 2 ==> address32 == old(address32)
      ensures err.None? && types != 3 ==> address20 == old(address20)
      ensures err.Some? ==> types == old(types)
      ensures old(d.Remaining()) != [] && old(d.Remaining())[0] > 3 ==>
        err == Some(UnsupportedType(old(d.Remaining())[0])) && unchanged(this)
    {
      ghost var input := d.Remaining();
      var b, ok := d.ReadOneByte();
      if !ok {
        return Some(ShortRead(1, 0));
      }
      assert d.Remaining() == input[1..];
      var available := |d.Remaining()|;
      if b == 0 {
        var id, got := d.Read(32);
        if !got {
          return Some(ShortRead(32, available));
        }
        accountId := id;
      } else if b == 1 {
        var n := d.DecodeWith(c.decode);
        if n.Failed? {
          return Some(CompactFailed);
        }
        index := n.value;
      } else if b == 2 {
        var h, got := d.Read(32);
        if !got {
          return Some(ShortRead(32, available));
        }
        address32 := h;
      } else if b == 3 {
        var h, got := d.Read(20);
        if !got {
          return Some(ShortRead(20, available));
        }
        address20 := h;
      } else {
        return Some(UnsupportedType(b));
      }
      types := b;
      return None;
    }

    /**
     * GenericMultiAddress.Encode: the discriminant as a u8 (types mod 256),
     * then the arm. An unsupported type is reported after its discriminant
     * byte has been written.
     */
    method Encode(e: Encoder, c: Compact) returns (err: Option<CodecError>)
      modifies e
      ensures err.None? <==> Value().Some?
      ensures err.None? ==> e.output == old(e.output) + MultiAddressBytes(Value().value, c)
      ensures err.Some? ==> err == Some(UnsupportedType(types)) && e.output == old(e.output) + [types % 256]
    {
      e.Write([types % 256]);
      if types == 0 {
        e.Write(accountId);
      } else if types == 1 {
        e.Write(c.encode(index));
      } else if types == 2 {
        e.Write(address32);
      } else if types == 3 {
        e.Write(address20);
      } else {
        return Some(UnsupportedType(types));
      }
      return None;
    }

    /**
     * GenericMultiAddress.ToAddress as written: an AccountID address built
     * from the byte 0x00 followed by the account id, cut to 32 bytes by
     * NewAccountID; the empty address for any other type.
     */
    function ToAddress(): (r: ChainAddress)
      reads this
      ensures types != 0 ==> r == EmptyChainAddress
      ensures types == 0 ==> r.isAccountID && !r.isAccountIndex && r.asAccountID == [0] + accountId[..31]
    {
      if types != 0 then EmptyChainAddress
      else NewAddressFromAccountID([0x00] + accountId)
    }

    /** What ToAddress evidently meant: the AccountID address of the account id itself. */
    function IntendedToAddress(): (r: ChainAddress)
      reads this
      ensures types != 0 ==> r == EmptyChainAddress
      ensures types == 0 ==> r.isAccountID && r.asAccountID == accountId && Value() == Some(AccountId(r.asAccountID))
    {
      if types != 0 then EmptyChainAddress
      else NewAddressFromAccountID(accountId)
    }
  }

  /** types.NewAddressFromAccountID. */
  function NewAddressFromAccountID(b: seq<byte>): ChainAddress
  {
    ChainAddress(true, NewAccountID(b), false, 0)
  }

  /** The discrepancy: an account id that does not start with 0x00 is not the one ToAddress returns. */
  lemma ToAddressShiftsAccountId(m: GenericMultiAddress)
    requires m.types == 0 && m.accountId[0] != 0
    ensures m.ToAddress().asAccountID != m.accountId
    ensures m.IntendedToAddress().asAccountID == m.accountId
  {
    assert m.ToAddress().asAccountID[0] == 0;
  }

  /**
   * Encode and Decode compose: what an address of a supported type encodes
   * to decodes into a fresh GenericMultiAddress holding the same address,
   * using up exactly the encoded bytes.
   */
  method EncodeThenDecode(src: GenericMultiAddress, c: Compact) returns (back: Option<MultiAddressValue>, used: nat, written: nat)
    requires Lawful(c) && 0 <= src.types <= 3
    ensures back == src.Value() && used == written
  {
    var e := new Encoder();
    var err := src.Encode(e, c);
    var d := new Decoder(e.output);
    var dst := new GenericMultiAddress();
    MultiAddressRoundTrip(src.Value().value, c, []);
    assert e.output == MultiAddressBytes(src.Value().value, c) + [];
    err := dst.Decode(d, c);
    back := dst.Value();
    used := d.pos;
    written := |e.output|;
  }

  // ===========================================================================
  // AccountInfoWithProviders

  /** The providers account layout: four u32 counters, then four u128 balances. */
  datatype AccountInfoWithProviders = AccountInfoWithProviders(
    nonce: U32Value, consumers: U32Value, refcount: U32Value, sufficients: U32Value, data: AccountData)

  /** The 80 bytes of the layout, fields in declared order, each little-endian. */
  function ProvidersLayoutBytes(a: AccountInfoWithProviders): (r: seq<byte>)
    ensures |r| == 80
  {
    LittleEndianBytes(a.nonce, 4) + LittleEndianBytes(a.consumers, 4)
    + LittleEndianBytes(a.refcount, 4) + LittleEndianBytes(a.sufficients, 4)
    + LittleEndianBytes(a.data.free, 16) + LittleEndianBytes(a.data.reserved, 16)
    + LittleEndianBytes(a.data.miscFrozen, 16) + LittleEndianBytes(a.data.freeFrozen, 16)
  }

  function U32At(bs: seq<byte>, i: nat): (v: U32Value)
    requires i + 4 <= |bs|
  {
    Pow256Values();
    LittleEndian(bs[i..i + 4])
  }

  function U128At(bs: seq<byte>, i: nat): (v: U128Value)
    requires i + 16 <= |bs|
  {
    Pow256Values();
    LittleEndian(bs[i..i + 16])
  }

  /** Decoding the providers layout from the front of bs. */
  function ParseProvidersLayout(bs: seq<byte>): (r: Decoded<AccountInfoWithProviders>)
    ensures r.Decoded? <==> |bs| >= 80
    ensures r.Decoded? ==> r.used == 80
  {
    if |bs| < 80 then Failed(|bs|)
    else Decoded(AccountInfoWithProviders(
      U32At(bs, 0), U32At(bs, 4), U32At(bs, 8), U32At(bs, 12),
      AccountData(U128At(bs, 16), U128At(bs, 32), U128At(bs, 48), U128At(bs, 64))), 80)
  }

  /** The layout decodes back to the account it was written from, whatever follows it. */
  lemma ProvidersLayoutRoundTrip(a: AccountInfoWithProviders, rest: seq<byte>)
    ensures ParseProvidersLayout(ProvidersLayoutBytes(a) + rest) == Decoded(a, 80)
  {
    Pow256Values();
    var b0, b1 := LittleEndianBytes(a.nonce, 4), LittleEndianBytes(a.consumers, 4);
    var b2, b3 := LittleEndianBytes(a.refcount, 4), LittleEndianBytes(a.sufficients, 4);
    var b4, b5 := LittleEndianBytes(a.data.free, 16), LittleEndianBytes(a.data.reserved, 16);
    var b6, b7 := LittleEndianBytes(a.data.miscFrozen, 16), LittleEndianBytes(a.data.freeFrozen, 16);
    var bs := ProvidersLayoutBytes(a) + rest;
    assert bs[0..4] == b0 && bs[4..8] == b1 && bs[8..12] == b2 && bs[12..16] == b3;
    assert bs[16..32] == b4 && bs[32..48] == b5 && bs[48..64] == b6 && bs[64..80] == b7;
    LittleEndianOfBytes(a.nonce, 4);
    LittleEndianOfBytes(a.consumers, 4);
    LittleEndianOfBytes(a.refcount, 4);
    LittleEndianOfBytes(a.sufficients, 4);
    LittleEndianOfBytes(a.data.free, 16);
    LittleEndianOfBytes(a.data.reserved, 16);
    LittleEndianOfBytes(a.data.miscFrozen, 16);
    LittleEndianOfBytes(a.data.freeFrozen, 16);
  }
}
