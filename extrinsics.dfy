/**
 * The extrinsic helpers both versions of the client share, word for word:
 * getTxId, getEra, getSignature, getLength, getPartialFee and the block
 * timestamp, the transfer record, and the reconstruction of a block's
 * transfers from its Balances.Transfer events. Where the two versions differ
 * (txDataFromExtrinsic), the reconstruction takes the variant as a parameter.
 */
module Extrinsics {
  import opened Bytes
  import opened Wrappers
  import opened Scale
  import opened Chain
  import opened Models
  import opened Rpc

  // ===========================================================================
  // getTxId, getEra, getSignature

  /** getTxId: "0x" and the hex of the blake2b-256 digest of the encoded extrinsic. */
  function TxId(lib: Library, ext: Extrinsic): (r: Result<string, Error>)
    ensures r.Ok? <==> lib.encodeExtrinsic(ext).Ok?
    ensures r.Ok? ==> |r.value| == 66 && r.value[..2] == "0x"
    ensures r.Ok? ==> forall i :: 2 <= i < |r.value| ==> r.value[i] in HexDigits
  {
    match lib.encodeExtrinsic(ext)
    case Err(_) => Err(TxIdFailed("failed to encode extrinsic"))
    case Ok(bs) =>
      var digest := lib.blake2b256(bs);
      HexDigitsOnly(digest);
      Ok("0x" + Hex(digest))
  }

  /** Equal transaction ids come from equal digests: the id loses nothing of the digest. */
  lemma TxIdIdentifiesDigest(lib: Library, a: Extrinsic, b: Extrinsic)
    requires TxId(lib, a).Ok? && TxId(lib, a) == TxId(lib, b)
    ensures lib.blake2b256(lib.encodeExtrinsic(a).value) == lib.blake2b256(lib.encodeExtrinsic(b).value)
  {
    var da := lib.blake2b256(lib.encodeExtrinsic(a).value);
    var db := lib.blake2b256(lib.encodeExtrinsic(b).value);
    assert Hex(da) == TxId(lib, a).value[2..] == TxId(lib, b).value[2..] == Hex(db);
    HexInjective(da, db);
  }

  /** getEra: the encoded era of the signature, printed with %#x. */
  function Era(lib: Library, ext: Extrinsic): (r: Result<string, Error>)
    ensures r.Ok? <==> lib.encodeEra(ext.signature.era).Ok?
    ensures r.Ok? ==> (r.value == "" <==> lib.encodeEra(ext.signature.era).value == [])
    ensures r.Ok? && r.value != "" ==> |r.value| == 2 + 2 * |lib.encodeEra(ext.signature.era).value| && r.value[..2] == "0x"
    ensures r.Ok? ==> forall i :: 2 <= i < |r.value| ==> r.value[i] in HexDigits
  {
    match lib.encodeEra(ext.signature.era)
    case Err(_) => Err(EraFailed("failed to encode signature era"))
    case Ok(bs) => Ok(SharpX(bs))
  }

  /** Two eras print alike exactly when they encode alike. */
  lemma EraIdentifiesEncoding(lib: Library, a: Extrinsic, b: Extrinsic)
    requires Era(lib, a).Ok? && Era(lib, b).Ok?
    ensures Era(lib, a) == Era(lib, b) <==> lib.encodeEra(a.signature.era) == lib.encodeEra(b.signature.era)
  {
    if Era(lib, a) == Era(lib, b) {
      SharpXInjective(lib.encodeEra(a.signature.era).value, lib.encodeEra(b.signature.era).value);
    }
  }

  /** types.Signature.Hex and its kin (hexutil.Encode): "0x" and the hex digits. */
  function PrefixedHex(bs: seq<byte>): (r: string)
    ensures |r| == 2 + 2 * |bs| && r[..2] == "0x"
  {
    "0x" + Hex(bs)
  }

  /** getSignature: the hex of the signature variant that is set, Ecdsa first, then Ed25519, then Sr25519. */
  function Signature(ext: Extrinsic): (r: Result<string, Error>)
    ensures r.Err? <==> !ext.signature.signature.isEcdsa && !ext.signature.signature.isEd25519 && !ext.signature.signature.isSr25519
    ensures r.Err? ==> r.error == NoSignature
  {
    var s := ext.signature.signature;
    if s.isEcdsa then Ok(PrefixedHex(s.asEcdsa))
    else if s.isEd25519 then Ok(PrefixedHex(s.asEd25519))
    else if s.isSr25519 then Ok(PrefixedHex(s.asSr25519))
    else Err(NoSignature)
  }

  /** The signatures a MultiSignature carries, in the order Ecdsa, Ed25519, Sr25519. */
  function PresentSignatures(s: MultiSignature): seq<seq<byte>>
  {
    (if s.isEcdsa then [s.asEcdsa] else [])
    + (if s.isEd25519 then [s.asEd25519] else [])
    + (if s.isSr25519 then [s.asSr25519] else [])
  }

  /** getSignature reports the first signature present in precedence order, and fails when there is none. */
  lemma SignatureIsFirstPresent(ext: Extrinsic)
    ensures var present := PresentSignatures(ext.signature.signature);
      Signature(ext) == if present == [] then Err(NoSignature) else Ok(PrefixedHex(present[0]))
  {
  }

  // ===========================================================================
  // getLength

  /**
   * The bytes getLength writes into its buffer: the version byte (a u8
   * encodes as itself), the encoded signature if the extrinsic is signed,
   * then the encoded call.
   */
  function LengthBuffer(lib: Library, ext: Extrinsic): (r: Result<seq<byte>, Error>)
    ensures ext.IsSigned() && lib.encodeSignature(ext.signature).Err? ==> r == Err(LengthFailed("failed to encode Signature"))
    ensures (ext.IsSigned() ==> lib.encodeSignature(ext.signature).Ok?) && lib.encodeCall(ext.call).Err? ==>
      r == Err(LengthFailed("failed to encode Method"))
    ensures r.Ok? ==> |r.value| >= 1 && r.value[0] == ext.version
    ensures r.Ok? && !ext.IsSigned() ==> r.value[1..] == lib.encodeCall(ext.call).value
  {
    var sig := if ext.IsSigned() then lib.encodeSignature(ext.signature) else Ok([]);
    match sig
    case Err(_) => Err(LengthFailed("failed to encode Signature"))
    case Ok(s) =>
      match lib.encodeCall(ext.call)
      case Err(_) => Err(LengthFailed("failed to encode Method"))
      case Ok(m) => Ok([ext.version] + s + m)
  }

  /** The length is the sum of its parts, and it is known exactly when every part encodes. */
  lemma LengthIsSumOfParts(lib: Library, ext: Extrinsic)
    ensures LengthBuffer(lib, ext).Ok? <==>
      (ext.IsSigned() ==> lib.encodeSignature(ext.signature).Ok?) && lib.encodeCall(ext.call).Ok?
    ensures LengthBuffer(lib, ext).Ok? ==>
      |LengthBuffer(lib, ext).value|
        == 1 + (if ext.IsSigned() then |lib.encodeSignature(ext.signature).value| else 0) + |lib.encodeCall(ext.call).value|
  {
  }

  /** getLength: the parts written one after another into a buffer, whose length is the result. */
  method GetLength(lib: Library, ext: Extrinsic) returns (r: Result<nat, Error>)
    ensures LengthBuffer(lib, ext).Ok? ==> r == Ok(|LengthBuffer(lib, ext).value|)
    ensures LengthBuffer(lib, ext).Err? ==> r == Err(LengthBuffer(lib, ext).error)
  {
    var bb := new Encoder();
    bb.Write([ext.version]);
    if ext.IsSigned() {
      var sig := lib.encodeSignature(ext.signature);
      if sig.Err? {
        return Err(LengthFailed("failed to encode Signature"));
      }
      bb.Write(sig.value);
    }
    var m := lib.encodeCall(ext.call);
    if m.Err? {
      return Err(LengthFailed("failed to encode Method"));
    }
    bb.Write(m.value);
    return Ok(|bb.output|);
  }

  // ===========================================================================
  // txDataFromExtrinsic (the working version of client/block.go)

  datatype TxData = TxData(txid: string, era: string, sig: string, len: int)

  /**
   * txDataFromExtrinsic as client/block.go writes it: id, era, signature and
   * length, stopping at the first that fails.
   */
  function TxDataOf(lib: Library, ext: Extrinsic): (r: Result<TxData, Error>)
    ensures r.Ok? <==> TxId(lib, ext).Ok? && Era(lib, ext).Ok? && Signature(ext).Ok? && LengthBuffer(lib, ext).Ok?
    ensures r.Ok? ==> r.value.txid == TxId(lib, ext).value && r.value.era == Era(lib, ext).value
    ensures r.Ok? ==> r.value.sig == Signature(ext).value && r.value.len == |LengthBuffer(lib, ext).value|
    ensures TxId(lib, ext).Err? ==> r == Err(TxId(lib, ext).error)
  {
    match TxId(lib, ext)
    case Err(e) => Err(e)
    case Ok(txid) =>
      match Era(lib, ext)
      case Err(e) => Err(e)
      case Ok(era) =>
        match Signature(ext)
        case Err(e) => Err(e)
        case Ok(sig) =>
          match LengthBuffer(lib, ext)
          case Err(e) => Err(e)
          case Ok(bs) => Ok(TxData(txid, era, sig, |bs|))
  }

  /** TxDataOf as a function value, for the reconstruction. */
  function TxDataWith(lib: Library): Extrinsic -> Result<TxData, Error>
  {
    ext => TxDataOf(lib, ext)
  }

  /** txDataFromExtrinsic (client/block.go): the record is allocated before it is filled. */
  method TxDataFromExtrinsic(lib: Library, ext: Extrinsic) returns (r: Result<TxData, Error>)
    ensures r == TxDataOf(lib, ext)
  {
    var txid := TxId(lib, ext);
    if txid.Err? {
      return Err(txid.error);
    }
    var era := Era(lib, ext);
    if era.Err? {
      return Err(era.error);
    }
    var sig := Signature(ext);
    if sig.Err? {
      return Err(sig.error);
    }
    var len := GetLength(lib, ext);
    if len.Err? {
      return Err(len.error);
    }
    return Ok(TxData(txid.value, era.value, sig.value, len.value));
  }

  // ===========================================================================
  // getPartialFee

  /** getPartialFee: the partialFee member of the reply, which must be present and a string. */
  function PartialFee(reply: FeeReply): (r: Result<string, Error>)
    ensures r.Ok? <==> reply.PartialFee?
    ensures r.Ok? ==> r.value == reply.fee
  {
    match reply
    case FeeCallFailed(e) => Err(FeeFailed("get payment info error: " + e))
    case PartialFeeAbsent => Err(FeeFailed("result partialFee is nil ptr"))
    case PartialFeeNotString => Err(FeeFailed("partialFee is not string type"))
    case PartialFee(fee) => Ok(fee)
  }

  // ===========================================================================
  // getBlockTimestamp

  /** The position of the first extrinsic whose call index is idx. */
  function FirstMatch(exts: seq<Extrinsic>, idx: CallIndex): (r: Option<nat>)
    ensures r.Some? ==> r.value < |exts| && exts[r.value].call.callIndex == idx
    ensures r.Some? ==> forall j :: 0 <= j < r.value ==> exts[j].call.callIndex != idx
    ensures r.None? ==> forall j :: 0 <= j < |exts| ==> exts[j].call.callIndex != idx
  {
    if exts == [] then None
    else if exts[0].call.callIndex == idx then Some(0)
    else match FirstMatch(exts[1..], idx)
      case None => None
      case Some(k) => Some(k + 1)
  }

  /**
   * The whole seconds of time.Unix(msec/1e3, (msec%1e3)*1e6): Go's division
   * truncates toward zero and time.Unix moves a negative nanosecond part into
   * the seconds.
   */
  function UnixSeconds(msec: int): (s: int)
    ensures 1000 * s <= msec < 1000 * s + 1000
  {
    var sec := GoQuo(msec, 1000);
    var nsec := GoRem(msec, 1000) * 1_000_000;
    if nsec < 0 then sec - 1 else sec
  }

  /** The seconds are the milliseconds divided by 1000, rounded down. */
  lemma UnixSecondsIsFloor(msec: int)
    ensures UnixSeconds(msec) == msec / 1000
  {
    var s := UnixSeconds(msec);
    var q := msec / 1000;
    assert 1000 * q <= msec < 1000 * q + 1000;
    assert -1000 < 1000 * (s - q) < 1000;
  }

  const TimestampSet := "Timestamp.set"

  /**
   * The block time in seconds: the compact argument of the first
   * Timestamp.set extrinsic, in milliseconds, as an int64, divided by 1000;
   * 0 when there is none. A nil metadata pointer panics.
   */
  function BlockTimestamp(meta: Option<Metadata>, lib: Library, exts: seq<Extrinsic>): (r: Result<int, Error>)
    ensures meta.None? ==> r.Err? && r.error.Panic?
    ensures meta.Some? && TimestampSet !in meta.value.calls ==> r.Err? && r.error.CallIndexNotFound?
    ensures meta.Some? && TimestampSet in meta.value.calls && FirstMatch(exts, meta.value.calls[TimestampSet]).None? ==> r == Ok(0)
    ensures meta.Some? && TimestampSet in meta.value.calls && FirstMatch(exts, meta.value.calls[TimestampSet]).Some? ==>
      var arg := Step(lib.compact.decode, exts[FirstMatch(exts, meta.value.calls[TimestampSet]).value].call.args);
      && (r.Ok? <==> arg.Decoded?)
      && (r.Ok? ==> r.value == ToInt64(arg.value) / 1000)
  {
    if meta.None? then Err(Panic("invalid memory address or nil pointer dereference"))
    else match FindCallIndex(meta.value, TimestampSet)
      case Err(e) => Err(CallIndexNotFound(e))
      case Ok(idx) =>
        match FirstMatch(exts, idx)
        case None => Ok(UnixSeconds(0))
        case Some(i) =>
          match Step(lib.compact.decode, exts[i].call.args)
          case Failed(_) => Err(TimestampDecodeFailed)
          case Decoded(msec, _) =>
            UnixSecondsIsFloor(ToInt64(msec));
            Ok(UnixSeconds(ToInt64(msec)))
  }

  /** Once a Timestamp.set extrinsic has been seen, whatever follows it changes nothing. */
  lemma {:induction false} FirstMatchExtends(exts: seq<Extrinsic>, more: seq<Extrinsic>, idx: CallIndex)
    requires FirstMatch(exts, idx).Some?
    ensures FirstMatch(exts + more, idx) == FirstMatch(exts, idx)
  {
    if exts[0].call.callIndex != idx {
      assert (exts + more)[1..] == exts[1..] + more;
      FirstMatchExtends(exts[1..], more, idx);
    }
  }

  lemma LaterMatchesIgnored(meta: Option<Metadata>, lib: Library, exts: seq<Extrinsic>, more: seq<Extrinsic>)
    requires meta.Some? && TimestampSet in meta.value.calls
    requires FirstMatch(exts, meta.value.calls[TimestampSet]).Some?
    ensures BlockTimestamp(meta, lib, exts + more) == BlockTimestamp(meta, lib, exts)
  {
    var idx := meta.value.calls[TimestampSet];
    FirstMatchExtends(exts, more, idx);
    assert (exts + more)[FirstMatch(exts, idx).value] == exts[FirstMatch(exts, idx).value];
  }

  /**
   * getBlockTimestamp: scan the extrinsics, skip the ones with another call
   * index, decode the first match's argument and stop.
   */
  method GetBlockTimestamp(meta: Option<Metadata>, lib: Library, exts: seq<Extrinsic>) returns (r: Result<int, Error>)
    ensures r == BlockTimestamp(meta, lib, exts)
  {
    if meta.None? {
      return Err(Panic("invalid memory address or nil pointer dereference"));
    }
    var found := FindCallIndex(meta.value, TimestampSet);
    if found.Err? {
      return Err(CallIndexNotFound(found.error));
    }
    var callIndex := found.value;
    var timestamp: nat := 0;
    var i := 0;
    while i < |exts|
      invariant 0 <= i <= |exts|
      invariant forall j :: 0 <= j < i ==> exts[j].call.callIndex != callIndex
      invariant timestamp == 0
    {
      if exts[i].call.callIndex != callIndex {
        i := i + 1;
        continue;
      }
      var timeDecoder := new Decoder(exts[i].call.args);
      var ts := timeDecoder.DecodeWith(lib.compact.decode);
      if ts.Failed? {
        FirstMatchIs(exts, callIndex, i);
        return Err(TimestampDecodeFailed);
      }
      FirstMatchIs(exts, callIndex, i);
      timestamp := ts.value;
      break;
    }
    if i == |exts| {
      FirstMatchNone(exts, callIndex);
    }
    var msec := ToInt64(timestamp);
    return Ok(UnixSeconds(msec));
  }

  lemma {:induction false} FirstMatchIs(exts: seq<Extrinsic>, idx: CallIndex, i: nat)
    requires i < |exts| && exts[i].call.callIndex == idx
    requires forall j :: 0 <= j < i ==> exts[j].call.callIndex != idx
    ensures FirstMatch(exts, idx) == Some(i)
  {
    if i > 0 {
      FirstMatchIs(exts[1..], idx, i - 1);
    }
  }

  lemma FirstMatchNone(exts: seq<Extrinsic>, idx: CallIndex)
    requires forall j :: 0 <= j < |exts| ==> exts[j].call.callIndex != idx
    ensures FirstMatch(exts, idx) == None
  {
  }

  // ===========================================================================
  // Events

  /** What c.Meta holds after `c.Meta, err = GetMetadataLatest()`: nil when the call failed. */
  function MetadataAfterFetch(node: Node): (m: Option<Metadata>)
    ensures m.Some? <==> node.metadata.Ok?
  {
    match node.metadata
    case Ok(m) => Some(m)
    case Err(_) => None
  }

  /**
   * The Balances.Transfer events of a block: fresh metadata, the System.Events
   * storage key, the raw storage at the block, and its decoding; the first
   * step that fails decides the error.
   */
  function TransferEvents(node: Node, lib: Library, blockHash: Hash): (r: Result<seq<TransferEvent>, Error>)
    ensures node.metadata.Err? ==> r == Err(MetadataFailed(node.metadata.error))
  {
    match node.metadata
    case Err(e) => Err(MetadataFailed(e))
    case Ok(m) =>
      match lib.createStorageKey(m, "System", "Events", [])
      case Err(e) => Err(StorageKeyFailed(e))
      case Ok(key) =>
        match node.storageRaw(key, blockHash)
        case Err(e) => Err(StorageQueryFailed(e))
        case Ok(raw) =>
          match lib.decodeEvents(m, raw)
          case Err(e) => Err(EventDecodeFailed(e))
          case Ok(events) => Ok(events)
  }

  /** The calls TransferEvents makes: the metadata, then the storage read once the key is built. */
  function EventCalls(node: Node, lib: Library, blockHash: Hash): seq<RpcCall>
  {
    match node.metadata
    case Err(_) => [GetMetadata]
    case Ok(m) =>
      match lib.createStorageKey(m, "System", "Events", [])
      case Err(_) => [GetMetadata]
      case Ok(key) => [GetMetadata, GetStorageRaw(key, blockHash)]
  }

  // ===========================================================================
  // Record assembly

  /** The record of one transfer. */
  function Record(ev: TransferEvent, ext: Extrinsic, fee: string, td: TxData): (r: ExtrinsicResponse)
    ensures r.recordType == "transfer" && r.status == "success"
    ensures r.eventIndex == r.extrinsicIndex == ev.phase
    ensures r.fromAddress == r.toAddress <==> ev.from == ev.to
    ensures DecimalValue(r.amount) == ev.value
    ensures -(TWO_63 as int) <= r.nonce < TWO_63
    ensures r.txid == td.txid && r.era == td.era && r.signature == td.sig && r.extrinsicLength == td.len && r.fee == fee
  {
    assert SharpX(ev.from) == SharpX(ev.to) ==> ev.from == ev.to by {
      if SharpX(ev.from) == SharpX(ev.to) {
        SharpXInjective(ev.from, ev.to);
      }
    }
    ExtrinsicResponse(
      recordType := "transfer",
      status := "success",
      txid := td.txid,
      fromAddress := SharpX(ev.from),
      toAddress := SharpX(ev.to),
      amount := Decimal(ev.value),
      fee := fee,
      signature := td.sig,
      nonce := ToInt64(ext.signature.nonce),
      era := td.era,
      extrinsicIndex := ev.phase,
      eventIndex := ev.phase,
      extrinsicLength := td.len)
  }

  /**
   * One iteration of the event loop: the bounds check on the phase, the fee
   * of the extrinsic at that position queried at `at`, its transaction data,
   * and the record.
   */
  function Transfer(ev: TransferEvent, exts: seq<Extrinsic>, fee: (Extrinsic, string) -> FeeReply, at: string,
                    txData: Extrinsic -> Result<TxData, Error>): (r: Result<ExtrinsicResponse, Error>)
    ensures ev.phase >= |exts| ==> r == Err(PhaseOutOfRange(ev.phase))
    ensures r.Ok? ==> ev.phase < |exts|
    ensures r.Ok? ==> r.value.recordType == "transfer" && r.value.status == "success"
    ensures r.Ok? ==> r.value.eventIndex == ev.phase && r.value.extrinsicIndex == ev.phase
    ensures r.Ok? ==> r.value.amount == Decimal(ev.value) && fee(exts[ev.phase], at).PartialFee? && r.value.fee == fee(exts[ev.phase], at).fee
    ensures r.Ok? ==> r.value.fromAddress == SharpX(ev.from) && r.value.toAddress == SharpX(ev.to)
    ensures r.Ok? ==> r.value.nonce == ToInt64(exts[ev.phase].signature.nonce)
    ensures r.Ok? <==> ev.phase < |exts| && fee(exts[ev.phase], at).PartialFee? && txData(exts[ev.phase]).Ok?
  {
    if ev.phase >= |exts| then Err(PhaseOutOfRange(ev.phase))
    else
      var ext := exts[ev.phase];
      match PartialFee(fee(ext, at))
      case Err(e) => Err(e)
      case Ok(f) =>
        match txData(ext)
        case Err(e) => Err(e)
        case Ok(td) => Ok(Record(ev, ext, f, td))
  }

  /**
   * The loop over the transfer events: one record per event, in event order,
   * or the error of the first event that fails.
   */
  function Reconstruct(events: seq<TransferEvent>, exts: seq<Extrinsic>, fee: (Extrinsic, string) -> FeeReply, at: string,
                       txData: Extrinsic -> Result<TxData, Error>): (r: Result<seq<ExtrinsicResponse>, Error>)
    ensures r.Ok? ==> |r.value| == |events|
  {
    if events == [] then Ok([])
    else
      match Reconstruct(events[..|events| - 1], exts, fee, at, txData)
      case Err(e) => Err(e)
      case Ok(rs) =>
        match Transfer(events[|events| - 1], exts, fee, at, txData)
        case Err(e) => Err(e)
        case Ok(rec) => Ok(rs + [rec])
  }

  /** When every event's step succeeds, so does the reconstruction. */
  lemma {:induction false} ReconstructAllOk(events: seq<TransferEvent>, exts: seq<Extrinsic>, fee: (Extrinsic, string) -> FeeReply,
                                            at: string, txData: Extrinsic -> Result<TxData, Error>)
    requires forall k :: 0 <= k < |events| ==> Transfer(events[k], exts, fee, at, txData).Ok?
    ensures Reconstruct(events, exts, fee, at, txData).Ok?
  {
    if events != [] {
      var init := events[..|events| - 1];
      assert forall k :: 0 <= k < |init| ==> init[k] == events[k];
      ReconstructAllOk(init, exts, fee, at, txData);
      assert Transfer(events[|events| - 1], exts, fee, at, txData).Ok?;
    }
  }

  /** The reconstruction succeeds exactly when every event's step does. */
  lemma ReconstructSucceeds(events: seq<TransferEvent>, exts: seq<Extrinsic>, fee: (Extrinsic, string) -> FeeReply,
                            at: string, txData: Extrinsic -> Result<TxData, Error>)
    ensures Reconstruct(events, exts, fee, at, txData).Ok? <==>
      forall k :: 0 <= k < |events| ==> Transfer(events[k], exts, fee, at, txData).Ok?
  {
    if Reconstruct(events, exts, fee, at, txData).Ok? {
      forall k | 0 <= k < |events|
        ensures Transfer(events[k], exts, fee, at, txData).Ok?
      {
        ReconstructInOrder(events, exts, fee, at, txData, k);
      }
    } else if forall k :: 0 <= k < |events| ==> Transfer(events[k], exts, fee, at, txData).Ok? {
      ReconstructAllOk(events, exts, fee, at, txData);
    }
  }

  /** In a successful reconstruction the k-th record is the k-th event's. */
  lemma {:induction false} ReconstructInOrder(events: seq<TransferEvent>, exts: seq<Extrinsic>, fee: (Extrinsic, string) -> FeeReply,
                                              at: string, txData: Extrinsic -> Result<TxData, Error>, k: nat)
    requires Reconstruct(events, exts, fee, at, txData).Ok? && k < |events|
    ensures Transfer(events[k], exts, fee, at, txData).Ok?
    ensures Reconstruct(events, exts, fee, at, txData).value[k] == Transfer(events[k], exts, fee, at, txData).value
  {
    var init := events[..|events| - 1];
    if k < |events| - 1 {
      ReconstructInOrder(init, exts, fee, at, txData, k);
      assert init[k] == events[k];
    }
  }

  /** One more event: the prefix's records and this event's record, or this event's error. */
  lemma ReconstructStep(events: seq<TransferEvent>, exts: seq<Extrinsic>, fee: (Extrinsic, string) -> FeeReply,
                        at: string, txData: Extrinsic -> Result<TxData, Error>, i: nat, records: seq<ExtrinsicResponse>)
    requires i < |events| && Reconstruct(events[..i], exts, fee, at, txData) == Ok(records)
    ensures var t := Transfer(events[i], exts, fee, at, txData);
      Reconstruct(events[..i + 1], exts, fee, at, txData) == if t.Ok? then Ok(records + [t.value]) else Err(t.error)
  {
    assert events[..i + 1][..i] == events[..i];
  }

  /** The first failing event decides the error of the whole reconstruction. */
  lemma {:induction false} ReconstructFailsAt(events: seq<TransferEvent>, exts: seq<Extrinsic>, fee: (Extrinsic, string) -> FeeReply,
                                              at: string, txData: Extrinsic -> Result<TxData, Error>, n: nat)
    requires n <= |events| && Reconstruct(events[..n], exts, fee, at, txData).Err?
    ensures Reconstruct(events, exts, fee, at, txData) == Reconstruct(events[..n], exts, fee, at, txData)
  {
    if n == |events| {
      assert events[..n] == events;
    } else {
      var init := events[..|events| - 1];
      assert init[..n] == events[..n];
      ReconstructFailsAt(init, exts, fee, at, txData, n);
    }
  }

  /** A transfer whose phase is not the position of an extrinsic fails the whole block. */
  lemma PhaseOutOfRangeFails(events: seq<TransferEvent>, exts: seq<Extrinsic>, fee: (Extrinsic, string) -> FeeReply,
                             at: string, txData: Extrinsic -> Result<TxData, Error>, k: nat)
    requires k < |events| && events[k].phase >= |exts|
    ensures Reconstruct(events, exts, fee, at, txData).Err?
  {
    ReconstructSucceeds(events, exts, fee, at, txData);
  }

  /** Every record of a successful reconstruction is a successful transfer at its event's phase. */
  lemma ReconstructRecords(events: seq<TransferEvent>, exts: seq<Extrinsic>, fee: (Extrinsic, string) -> FeeReply,
                           at: string, txData: Extrinsic -> Result<TxData, Error>, k: nat)
    requires Reconstruct(events, exts, fee, at, txData).Ok? && k < |events|
    ensures var rec := Reconstruct(events, exts, fee, at, txData).value[k];
      && events[k].phase < |exts|
      && rec.recordType == "transfer" && rec.status == "success"
      && rec.eventIndex == events[k].phase && rec.extrinsicIndex == events[k].phase
      && rec.amount == Decimal(events[k].value)
      && fee(exts[events[k].phase], at).PartialFee? && rec.fee == fee(exts[events[k].phase], at).fee
  {
    ReconstructInOrder(events, exts, fee, at, txData, k);
  }
}
