/**
 * The second version of the client (client/block.go, with client/tx.go): it
 * talks to the node through c.API, reads a block's transfers with
 * parseExtrinsic, and builds, signs and submits balance transfers.
 */
module ClientV2 {
  import opened Bytes
  import opened Wrappers
  import opened Chain
  import opened Models
  import opened Rpc
  import opened Extrinsics

  // ===========================================================================
  // parseExtrinsic and GetBlockByHash

  /**
   * parseExtrinsic (client/block.go): no extrinsics gives an empty, allocated
   * list; otherwise the transfer events and one record per event, with the
   * fee queried at the parent block's hash.
   */
  function ParseExtrinsicSpec(node: Node, lib: Library, blockHash: Hash, parentHash: Hash, exts: seq<Extrinsic>)
    : (r: Result<seq<ExtrinsicResponse>, Error>)
    ensures exts == [] ==> r == Ok([])
    ensures exts != [] && TransferEvents(node, lib, blockHash).Ok? ==>
      r == Reconstruct(TransferEvents(node, lib, blockHash).value, exts, node.fee, HashHex(parentHash), TxDataWith(lib))
    ensures exts != [] && TransferEvents(node, lib, blockHash).Err? ==> r == Err(TransferEvents(node, lib, blockHash).error)
  {
    if |exts| == 0 then Ok([])
    else match TransferEvents(node, lib, blockHash)
      case Err(e) => Err(e)
      case Ok(events) => Reconstruct(events, exts, node.fee, HashHex(parentHash), TxDataWith(lib))
  }

  /** The records of a block are its transfer events' records, one each, in event order. */
  lemma ParseExtrinsicRecords(node: Node, lib: Library, blockHash: Hash, parentHash: Hash, exts: seq<Extrinsic>, k: nat)
    requires exts != [] && ParseExtrinsicSpec(node, lib, blockHash, parentHash, exts).Ok?
    ensures TransferEvents(node, lib, blockHash).Ok?
    ensures var events := TransferEvents(node, lib, blockHash).value;
      var records := ParseExtrinsicSpec(node, lib, blockHash, parentHash, exts).value;
      && |records| == |events|
      && (k < |events| ==>
            && events[k].phase < |exts|
            && Transfer(events[k], exts, node.fee, HashHex(parentHash), TxDataWith(lib)).Ok?
            && records[k] == Transfer(events[k], exts, node.fee, HashHex(parentHash), TxDataWith(lib)).value
            && records[k].eventIndex == events[k].phase && records[k].extrinsicIndex == events[k].phase
            && records[k].recordType == "transfer" && records[k].status == "success")
  {
    var events := TransferEvents(node, lib, blockHash).value;
    if k < |events| {
      ReconstructInOrder(events, exts, node.fee, HashHex(parentHash), TxDataWith(lib), k);
      ReconstructRecords(events, exts, node.fee, HashHex(parentHash), TxDataWith(lib), k);
    }
  }

  /** The working txDataFromExtrinsic: a transfer whose fee and transaction data are available is reported. */
  lemma TransferReported(node: Node, lib: Library, blockHash: Hash, parentHash: Hash, exts: seq<Extrinsic>)
    requires exts != [] && TransferEvents(node, lib, blockHash).Ok?
    requires var events := TransferEvents(node, lib, blockHash).value;
      forall k :: 0 <= k < |events| ==>
        events[k].phase < |exts| && node.fee(exts[events[k].phase], HashHex(parentHash)).PartialFee?
        && TxDataOf(lib, exts[events[k].phase]).Ok?
    ensures ParseExtrinsicSpec(node, lib, blockHash, parentHash, exts).Ok?
  {
    ReconstructSucceeds(TransferEvents(node, lib, blockHash).value, exts, node.fee, HashHex(parentHash), TxDataWith(lib));
  }

  /**
   * GetBlockByHash (client/block.go) after its runtime check, whose outcome
   * is `check`: the block, its timestamp (with the metadata held before the
   * call), then its transfers.
   */
  function BlockByHash(node: Node, lib: Library, check: Option<Error>, meta: Option<Metadata>, blockHash: Hash)
    : (r: Result<BlockResponse, Error>)
    ensures check.Some? ==> r == Err(check.value)
    ensures r.Ok? ==>
      && node.block(blockHash).Ok?
      && var b := node.block(blockHash).value;
      && r.value.height == b.number && r.value.parentHash == HashHex(b.parentHash) && r.value.blockHash == HashHex(blockHash)
      && BlockTimestamp(meta, lib, b.extrinsics) == Ok(r.value.timestamp)
      && r.value.extrinsic.Some?
      && ParseExtrinsicSpec(node, lib, blockHash, b.parentHash, b.extrinsics) == Ok(r.value.extrinsic.value)
  {
    if check.Some? then Err(check.value)
    else match node.block(blockHash)
      case Err(e) => Err(GetBlockFailed(e))
      case Ok(b) =>
        match BlockTimestamp(meta, lib, b.extrinsics)
        case Err(e) => Err(e)
        case Ok(ts) =>
          match ParseExtrinsicSpec(node, lib, blockHash, b.parentHash, b.extrinsics)
          case Err(e) => Err(e)
          case Ok(records) =>
            Ok(BlockResponse(b.number, HashHex(b.parentHash), HashHex(blockHash), ts, Some(records)))
  }

  /** Unlike client/client.go, a block read here always carries an allocated list, empty for a block without extrinsics. */
  lemma EmptyBlockHasEmptyList(node: Node, lib: Library, check: Option<Error>, meta: Option<Metadata>, blockHash: Hash)
    requires BlockByHash(node, lib, check, meta, blockHash).Ok?
    requires node.block(blockHash).Ok? && node.block(blockHash).value.extrinsics == []
    ensures BlockByHash(node, lib, check, meta, blockHash).value.extrinsic == Some([])
    ensures BlockByHash(node, lib, check, meta, blockHash).value.timestamp == 0
  {
    var b := node.block(blockHash).value;
    assert FirstMatch(b.extrinsics, meta.value.calls[TimestampSet]) == None;
  }

  // ===========================================================================
  // NewCall

  /** The arguments' encodings concatenated in argument order, or the first encoding error. */
  function EncodeAll<A>(args: seq<A>, encode: A -> Result<seq<byte>, string>): (r: Result<seq<byte>, string>)
  {
    if args == [] then Ok([])
    else match EncodeAll(args[..|args| - 1], encode)
      case Err(e) => Err(e)
      case Ok(bs) =>
        match encode(args[|args| - 1])
        case Err(e) => Err(e)
        case Ok(last) => Ok(bs + last)
  }

  /** The total length of the arguments' encodings, all of which succeed. */
  function SumOfLengths<A>(args: seq<A>, encode: A -> Result<seq<byte>, string>): nat
    requires forall i :: 0 <= i < |args| ==> encode(args[i]).Ok?
  {
    if args == [] then 0
    else SumOfLengths(args[..|args| - 1], encode) + |encode(args[|args| - 1]).value|
  }

  /** The encoding succeeds exactly when every argument's does, and is as long as all of them together. */
  lemma {:induction false} EncodeAllSucceeds<A>(args: seq<A>, encode: A -> Result<seq<byte>, string>)
    ensures EncodeAll(args, encode).Ok? <==> forall i :: 0 <= i < |args| ==> encode(args[i]).Ok?
    ensures EncodeAll(args, encode).Ok? ==> |EncodeAll(args, encode).value| == SumOfLengths(args, encode)
  {
    if args != [] {
      var init := args[..|args| - 1];
      EncodeAllSucceeds(init, encode);
      assert forall i :: 0 <= i < |init| ==> init[i] == args[i];
      if !encode(args[|args| - 1]).Ok? {
        assert !(forall i :: 0 <= i < |args| ==> encode(args[i]).Ok?);
      }
    }
  }

  /**
   * NewCall: the call index of `name` with section and method swapped, and
   * the arguments: the metadata's method index as one byte, then every
   * argument's encoding.
   */
  function CallFor<A>(m: Metadata, name: string, args: seq<A>, encode: A -> Result<seq<byte>, string>): (r: Result<Call, Error>)
    ensures name !in m.calls ==> r == Err(CallIndexNotFound("method not found"))
    ensures r.Ok? <==> name in m.calls && EncodeAll(args, encode).Ok?
    ensures r.Ok? ==>
      && r.value.callIndex == CallIndex(m.calls[name].methodIndex, m.calls[name].sectionIndex)
      && r.value.args == [m.calls[name].methodIndex] + EncodeAll(args, encode).value
  {
    match FindCallIndex(m, name)
    case Err(e) => Err(CallIndexNotFound(e))
    case Ok(c) =>
      match EncodeAll(args, encode)
      case Err(e) => Err(ArgEncodeFailed(e))
      case Ok(bs) => Ok(Call(CallIndex(c.methodIndex, c.sectionIndex), [c.methodIndex] + bs))
  }

  /** Swapping the call's index back gives the metadata's entry, and the arguments are one byte longer than their encodings. */
  lemma CallForLayout<A>(m: Metadata, name: string, args: seq<A>, encode: A -> Result<seq<byte>, string>)
    requires CallFor(m, name, args, encode).Ok?
    ensures var c := CallFor(m, name, args, encode).value;
      && CallIndex(c.callIndex.methodIndex, c.callIndex.sectionIndex) == m.calls[name]
      && c.args[0] == m.calls[name].methodIndex
      && (forall i :: 0 <= i < |args| ==> encode(args[i]).Ok?)
      && |c.args| == 1 + SumOfLengths(args, encode)
  {
    EncodeAllSucceeds(args, encode);
  }

  /** NewCall (client/tx.go): on any failure the empty Call and the error. */
  method NewCall<A>(m: Metadata, name: string, args: seq<A>, encode: A -> Result<seq<byte>, string>)
    returns (call: Call, err: Option<Error>)
    ensures var r := CallFor(m, name, args, encode);
      && (r.Ok? ==> call == r.value && err == None)
      && (r.Err? ==> call == EmptyCall && err == Some(r.error))
  {
    var c := FindCallIndex(m, name);
    if c.Err? {
      return EmptyCall, Some(CallIndexNotFound(c.error));
    }
    var swapped := CallIndex(c.value.methodIndex, c.value.sectionIndex);
    var a: seq<byte> := [swapped.sectionIndex];
    var i := 0;
    while i < |args|
      invariant 0 <= i <= |args|
      invariant EncodeAll(args[..i], encode).Ok?
      invariant a == [swapped.sectionIndex] + EncodeAll(args[..i], encode).value
    {
      assert args[..i + 1][..i] == args[..i] && args[..i + 1][i] == args[i];
      var e := encode(args[i]);
      if e.Err? {
        EncodeAllFailsAt(args, encode, i + 1);
        return EmptyCall, Some(ArgEncodeFailed(e.error));
      }
      a := a + e.value;
      i := i + 1;
    }
    assert args[..i] == args;
    return Call(swapped, a), None;
  }

  /** An argument that fails to encode decides the error of the whole encoding. */
  lemma {:induction false} EncodeAllFailsAt<A>(args: seq<A>, encode: A -> Result<seq<byte>, string>, n: nat)
    requires n <= |args| && EncodeAll(args[..n], encode).Err?
    ensures EncodeAll(args, encode) == EncodeAll(args[..n], encode)
  {
    if n == |args| {
      assert args[..n] == args;
    } else {
      var init := args[..|args| - 1];
      assert init[..n] == args[..n];
      EncodeAllFailsAt(init, encode, n);
    }
  }

  // ===========================================================================
  // DecodeToPub

  /** DecodeToPub (client/tx.go): a base58 string of 35 bytes, less its prefix byte and two-byte trailer. */
  function DecodeToPub(lib: Library, address: string): (r: Result<seq<byte>, Error>)
    ensures r.Ok? <==> |lib.base58Decode(address)| == 35
    ensures r.Err? ==> r.error == Base58LengthInvalid
    ensures r.Ok? ==> |r.value| == 32 && r.value == lib.base58Decode(address)[1..33]
  {
    var data := lib.base58Decode(address);
    if |data| != 35 then Err(Base58LengthInvalid) else Ok(data[1..|data| - 2])
  }

  /** Any prefix and any trailer around a 32-byte key give that key: the trailer is never checked. */
  lemma DecodeToPubIgnoresTrailer(lib: Library, address: string, prefix: byte, pub: seq<byte>, trailer: seq<byte>)
    requires |pub| == 32 && |trailer| == 2
    requires lib.base58Decode(address) == [prefix] + pub + trailer
    ensures DecodeToPub(lib, address) == Ok(pub)
  {
    assert ([prefix] + pub + trailer)[1..33] == pub;
  }

  // ===========================================================================
  // GetSignatureOptions

  /**
   * GetSignatureOptions (client/tx.go), given the outcomes of the genesis
   * hash lookup, the signer's account lookup and the runtime check, and the
   * runtime version held after the check: the first failure, or the record.
   */
  function SignatureOptionsOf(genesis: Result<Hash, Error>, account: Result<AccountInfo, Error>, check: Option<Error>,
                              rv: RuntimeVersion, tip: nat): (r: Result<SignatureOptions, Error>)
    ensures genesis.Err? ==> r == Err(genesis.error)
    ensures genesis.Ok? && account.Err? ==> r == Err(account.error)
    ensures genesis.Ok? && account.Ok? && check.Some? ==> r == Err(check.value)
    ensures r.Ok? <==> genesis.Ok? && account.Ok? && check.None?
    ensures r.Ok? ==>
      && r.value.blockHash == genesis.value && r.value.genesisHash == genesis.value
      && r.value.era.isImmortalEra && !r.value.era.isMortalEra
      && r.value.nonce == account.value.nonce && r.value.tip == tip
      && r.value.specVersion == rv.specVersion && r.value.transactionVersion == rv.transactionVersion
  {
    match genesis
    case Err(e) => Err(e)
    case Ok(g) =>
      match account
      case Err(e) => Err(e)
      case Ok(ai) =>
        if check.Some? then Err(check.value)
        else Ok(SignatureOptions(g, ImmortalEra, g, ai.nonce, rv.specVersion, tip, rv.transactionVersion))
  }

  // ===========================================================================
  // AuthorTransferAsset

  /**
   * What GetSignatureOptions calls that is not part of this model: the
   * genesis hash lookup, the signer's account lookup, the runtime check and
   * the runtime version it leaves.
   */
  datatype SignerContext = SignerContext(
    genesis: Result<Hash, Error>,
    account: KeyPair -> Result<AccountInfo, Error>,
    check: Option<Error>,
    runtimeVersion: RuntimeVersion)

  /** The name of the call a transfer makes. */
  const BalancesTransfer := "Balances.transfer"

  /**
   * AuthorTransferAsset up to submission: the key pair, the receiver, the
   * metadata, the signature options, the call, and the signed extrinsic;
   * the first step that fails decides the error.
   */
  function TransferPlan(node: Node, lib: Library, ctx: SignerContext, netId: nat,
                        senderSecret: string, receiver: string, value: nat, tip: nat): (r: Result<Extrinsic, Error>)
    ensures lib.keyringPairFromSecret(senderSecret, netId).Err? ==>
      r == Err(KeyPairFailed(lib.keyringPairFromSecret(senderSecret, netId).error))
    ensures lib.keyringPairFromSecret(senderSecret, netId).Ok? && lib.multiAddressFromHexAccountID(receiver).Err? ==>
      r == Err(ReceiverFailed(lib.multiAddressFromHexAccountID(receiver).error))
    ensures lib.keyringPairFromSecret(senderSecret, netId).Ok? && lib.multiAddressFromHexAccountID(receiver).Ok? && node.metadata.Err? ==>
      r == Err(MetadataFailed(node.metadata.error))
    ensures r.Ok? ==>
      var from := lib.keyringPairFromSecret(senderSecret, netId);
      var to := lib.multiAddressFromHexAccountID(receiver);
      && from.Ok? && to.Ok? && node.metadata.Ok?
      && var so := SignatureOptionsOf(ctx.genesis, ctx.account(from.value), ctx.check, ctx.runtimeVersion, tip);
      && var ca := CallFor(node.metadata.value, BalancesTransfer, [ReceiverArg(to.value), AmountArg(value)], lib.encodeArg);
      && so.Ok? && ca.Ok? && lib.sign(NewExtrinsic(ca.value), from.value, so.value) == Ok(r.value)
  {
    match lib.keyringPairFromSecret(senderSecret, netId)
    case Err(e) => Err(KeyPairFailed(e))
    case Ok(from) =>
      match lib.multiAddressFromHexAccountID(receiver)
      case Err(e) => Err(ReceiverFailed(e))
      case Ok(to) =>
        match node.metadata
        case Err(e) => Err(MetadataFailed(e))
        case Ok(m) =>
          match SignatureOptionsOf(ctx.genesis, ctx.account(from), ctx.check, ctx.runtimeVersion, tip)
          case Err(e) => Err(e)
          case Ok(so) =>
            match CallFor(m, BalancesTransfer, [ReceiverArg(to), AmountArg(value)], lib.encodeArg)
            case Err(e) => Err(e)
            case Ok(ca) =>
              match lib.sign(NewExtrinsic(ca), from, so)
              case Err(e) => Err(SignFailed(e))
              case Ok(ext) => Ok(ext)
  }

  /** The plan succeeds exactly when every step does, and then signs the transfer call built against the fetched metadata. */
  lemma TransferPlanSucceeds(node: Node, lib: Library, ctx: SignerContext, netId: nat,
                             senderSecret: string, receiver: string, value: nat, tip: nat)
    ensures var r := TransferPlan(node, lib, ctx, netId, senderSecret, receiver, value, tip);
      var from := lib.keyringPairFromSecret(senderSecret, netId);
      var to := lib.multiAddressFromHexAccountID(receiver);
      r.Ok? <==>
        && from.Ok? && to.Ok? && node.metadata.Ok?
        && SignatureOptionsOf(ctx.genesis, ctx.account(from.value), ctx.check, ctx.runtimeVersion, tip).Ok?
        && CallFor(node.metadata.value, BalancesTransfer, [ReceiverArg(to.value), AmountArg(value)], lib.encodeArg).Ok?
        && lib.sign(NewExtrinsic(CallFor(node.metadata.value, BalancesTransfer, [ReceiverArg(to.value), AmountArg(value)], lib.encodeArg).value),
                    from.value,
                    SignatureOptionsOf(ctx.genesis, ctx.account(from.value), ctx.check, ctx.runtimeVersion, tip).value).Ok?
  {
  }

  /** The transfer call names the receiver before the amount. */
  lemma TransferCallArguments(m: Metadata, to: Hash, value: nat, lib: Library)
    requires CallFor(m, BalancesTransfer, [ReceiverArg(to), AmountArg(value)], lib.encodeArg).Ok?
    ensures lib.encodeArg(ReceiverArg(to)).Ok? && lib.encodeArg(AmountArg(value)).Ok?
    ensures CallFor(m, BalancesTransfer, [ReceiverArg(to), AmountArg(value)], lib.encodeArg).value.args
      == [m.calls[BalancesTransfer].methodIndex] + lib.encodeArg(ReceiverArg(to)).value + lib.encodeArg(AmountArg(value)).value
  {
    var args := [ReceiverArg(to), AmountArg(value)];
    EncodeAllSucceeds(args, lib.encodeArg);
    var first := [ReceiverArg(to)];
    assert args[..1] == first && first[..0] == [];
    assert EncodeAll(first, lib.encodeArg) == Ok([] + lib.encodeArg(ReceiverArg(to)).value);
    assert [] + lib.encodeArg(ReceiverArg(to)).value == lib.encodeArg(ReceiverArg(to)).value;
  }

  // ===========================================================================
  // The client

  class Client {
    var meta: Option<Metadata>
    var netId: nat
    var trace: seq<RpcCall>   // the node calls this client makes itself, oldest first; those of the steps passed in as parameters are not logged

    constructor (netId: nat)
      ensures this.netId == netId && meta == None && trace == []
    {
      this.netId := netId;
      meta := None;
      trace := [];
    }

    /** The metadata fetch, storage key, raw storage read and event decoding of parseExtrinsic. */
    method FetchEvents(node: Node, lib: Library, blockHash: Hash) returns (r: Result<seq<TransferEvent>, Error>)
      modifies this
      ensures r == TransferEvents(node, lib, blockHash)
      ensures meta == MetadataAfterFetch(node) && netId == old(netId)
      ensures trace == old(trace) + EventCalls(node, lib, blockHash)
    {
      var m := node.metadata;
      trace := trace + [GetMetadata];
      meta := MetadataAfterFetch(node);
      if m.Err? {
        return Err(MetadataFailed(m.error));
      }
      var key := lib.createStorageKey(m.value, "System", "Events", []);
      if key.Err? {
        return Err(StorageKeyFailed(key.error));
      }
      var raw := node.storageRaw(key.value, blockHash);
      trace := trace + [GetStorageRaw(key.value, blockHash)];
      if raw.Err? {
        return Err(StorageQueryFailed(raw.error));
      }
      var events := lib.decodeEvents(m.value, raw.value);
      if events.Err? {
        return Err(EventDecodeFailed(events.error));
      }
      return Ok(events.value);
    }

    /** One pass of the loop of parseExtrinsic: the bounds check, the fee, the transaction data, the record. */
    method TransferRecord(node: Node, lib: Library, tr: TransferEvent, exts: seq<Extrinsic>, parentHex: string)
      returns (r: Result<ExtrinsicResponse, Error>)
      modifies this
      ensures r == Transfer(tr, exts, node.fee, parentHex, TxDataWith(lib))
      ensures meta == old(meta) && netId == old(netId)
      ensures trace == old(trace) + FeeQuery(tr, exts, parentHex)
    {
      if !(|exts| > tr.phase) {
        return Err(PhaseOutOfRange(tr.phase));
      }
      var currentExt := exts[tr.phase];
      var reply := node.fee(currentExt, parentHex);
      trace := trace + [QueryFee(currentExt, parentHex)];
      var fee := Extrinsics.PartialFee(reply);
      if fee.Err? {
        return Err(fee.error);
      }
      var td := TxDataFromExtrinsic(lib, currentExt);
      if td.Err? {
        return Err(td.error);
      }
      return Ok(Record(tr, currentExt, fee.value, td.value));
    }

    /** The loop of parseExtrinsic over the transfer events. */
    method TransferRecords(node: Node, lib: Library, events: seq<TransferEvent>, exts: seq<Extrinsic>, parentHex: string)
      returns (r: Result<seq<ExtrinsicResponse>, Error>)
      modifies this
      ensures r == Reconstruct(events, exts, node.fee, parentHex, TxDataWith(lib))
      ensures meta == old(meta) && netId == old(netId)
      ensures ExtendedWithFeesAt(old(trace), trace, parentHex)
    {
      var records: seq<ExtrinsicResponse> := [];
      ghost var fees: seq<RpcCall> := [];
      var i := 0;
      while i < |events|
        invariant 0 <= i <= |events|
        invariant meta == old(meta) && netId == old(netId)
        invariant trace == old(trace) + fees && FeesQueriedAt(fees, parentHex)
        invariant Reconstruct(events[..i], exts, node.fee, parentHex, TxDataWith(lib)) == Ok(records)
      {
        ReconstructStep(events, exts, node.fee, parentHex, TxDataWith(lib), i, records);
        var record := TransferRecord(node, lib, events[i], exts, parentHex);
        AppendAssociates(old(trace), fees, FeeQuery(events[i], exts, parentHex));
        FeesQueriedAtAppend(fees, FeeQuery(events[i], exts, parentHex), parentHex);
        fees := fees + FeeQuery(events[i], exts, parentHex);
        if record.Err? {
          ReconstructFailsAt(events, exts, node.fee, parentHex, TxDataWith(lib), i + 1);
          SplitCalls(old(trace), fees);
          return Err(record.error);
        }
        records := records + [record.value];
        i := i + 1;
      }
      assert events[..i] == events;
      SplitCalls(old(trace), fees);
      return Ok(records);
    }

    /**
     * parseExtrinsic (client/block.go). A block without extrinsics makes no
     * call and leaves the metadata alone; otherwise the metadata is
     * refetched and every fee is queried at the parent block's hash.
     */
    method ParseExtrinsic(node: Node, lib: Library, blockHash: Hash, parentHash: Hash, exts: seq<Extrinsic>)
      returns (r: Result<seq<ExtrinsicResponse>, Error>)
      modifies this
      ensures r == ParseExtrinsicSpec(node, lib, blockHash, parentHash, exts)
      ensures exts == [] ==> meta == old(meta) && trace == old(trace)
      ensures exts != [] ==> meta == MetadataAfterFetch(node)
      ensures netId == old(netId)
      ensures ExtendedWithFeesAt(old(trace), trace, HashHex(parentHash))
    {
      if |exts| == 0 {
        SplitCalls(old(trace), []);
        return Ok([]);
      }
      var events := FetchEvents(node, lib, blockHash);
      SplitCalls(old(trace), EventCalls(node, lib, blockHash));
      if events.Err? {
        return Err(events.error);
      }
      ghost var mid := trace;
      r := TransferRecords(node, lib, events.value, exts, HashHex(parentHash));
      ExtendedTransitive(old(trace), mid, trace, HashHex(parentHash));
    }

    /**
     * GetBlockByHash (client/block.go). The runtime check is not part of
     * this model; `check` is its outcome.
     */
    method GetBlockByHash(node: Node, lib: Library, check: Option<Error>, blockHash: Hash) returns (r: Result<BlockResponse, Error>)
      modifies this
      ensures r == BlockByHash(node, lib, check, old(meta), blockHash)
      ensures netId == old(netId)
      ensures check.Some? ==> trace == old(trace) && meta == old(meta)
      ensures var b := node.block(blockHash);
        var refetched := check.None? && b.Ok? && b.value.extrinsics != [] && BlockTimestamp(old(meta), lib, b.value.extrinsics).Ok?;
        meta == if refetched then MetadataAfterFetch(node) else old(meta)
      ensures check.None? ==>
        && |old(trace)| < |trace| && trace[|old(trace)|] == GetBlock(blockHash)
        && (node.block(blockHash).Ok? ==>
              ExtendedWithFeesAt(old(trace) + [GetBlock(blockHash)], trace, HashHex(node.block(blockHash).value.parentHash)))
    {
      if check.Some? {
        return Err(check.value);
      }
      var block := node.block(blockHash);
      trace := trace + [GetBlock(blockHash)];
      if block.Err? {
        return Err(GetBlockFailed(block.error));
      }
      var b := block.value;
      ghost var fetched := trace;
      var ts := GetBlockTimestamp(meta, lib, b.extrinsics);
      if ts.Err? {
        SplitCalls(fetched, []);
        return Err(ts.error);
      }
      var extrinsic := ParseExtrinsic(node, lib, blockHash, b.parentHash, b.extrinsics);
      assert trace[|old(trace)|] == trace[..|fetched|][|old(trace)|];
      if extrinsic.Err? {
        return Err(extrinsic.error);
      }
      return Ok(BlockResponse(b.number, HashHex(b.parentHash), HashHex(blockHash), ts.value, Some(extrinsic.value)));
    }

    /**
     * AuthorTransferAsset (client/tx.go): the steps in order, the metadata
     * stored whether or not its fetch succeeds, and one submission, made only
     * when every step before it has succeeded.
     */
    method AuthorTransferAsset(node: Node, lib: Library, ctx: SignerContext,
                               senderSecret: string, receiver: string, value: nat, tip: nat)
      returns (r: Result<Hash, Error>)
      modifies this
      ensures var plan := TransferPlan(node, lib, ctx, old(netId), senderSecret, receiver, value, tip);
        && (plan.Err? ==> r == Err(plan.error))
        && (plan.Ok? ==> trace == old(trace) + [GetMetadata, SubmitExtrinsic(plan.value)]
                         && r == (match node.submit(plan.value)
                                  case Ok(h) => Ok(h)
                                  case Err(e) => Err(SubmitFailed(e))))
      ensures trace == old(trace) || trace == old(trace) + [GetMetadata]
              || (TransferPlan(node, lib, ctx, old(netId), senderSecret, receiver, value, tip).Ok? &&
                  trace == old(trace) + [GetMetadata, SubmitExtrinsic(TransferPlan(node, lib, ctx, old(netId), senderSecret, receiver, value, tip).value)])
      ensures netId == old(netId)
      ensures lib.keyringPairFromSecret(senderSecret, old(netId)).Err? || lib.multiAddressFromHexAccountID(receiver).Err? ==>
        r.Err? && trace == old(trace) && meta == old(meta)
      ensures var from := lib.keyringPairFromSecret(senderSecret, old(netId));
        from.Ok? && lib.multiAddressFromHexAccountID(receiver).Ok? ==> meta == MetadataAfterFetch(node)
      ensures var from := lib.keyringPairFromSecret(senderSecret, old(netId));
        && from.Ok? && lib.multiAddressFromHexAccountID(receiver).Ok?
        && TransferPlan(node, lib, ctx, old(netId), senderSecret, receiver, value, tip).Err?
        ==> trace == old(trace) + [GetMetadata]
    {
      var from := lib.keyringPairFromSecret(senderSecret, netId);
      if from.Err? {
        return Err(KeyPairFailed(from.error));
      }
      var to := lib.multiAddressFromHexAccountID(receiver);
      if to.Err? {
        return Err(ReceiverFailed(to.error));
      }
      var m := node.metadata;
      trace := trace + [GetMetadata];
      meta := MetadataAfterFetch(node);
      if m.Err? {
        return Err(MetadataFailed(m.error));
      }
      var so := SignatureOptionsOf(ctx.genesis, ctx.account(from.value), ctx.check, ctx.runtimeVersion, tip);
      if so.Err? {
        return Err(so.error);
      }
      var ca, err := NewCall(m.value, BalancesTransfer, [ReceiverArg(to.value), AmountArg(value)], lib.encodeArg);
      if err.Some? {
        return Err(err.value);
      }
      var ext := NewExtrinsic(ca);
      var signed := lib.sign(ext, from.value, so.value);
      if signed.Err? {
        return Err(SignFailed(signed.error));
      }
      var txHash := node.submit(signed.value);
      trace := trace + [SubmitExtrinsic(signed.value)];
      if txHash.Err? {
        return Err(SubmitFailed(txHash.error));
      }
      return Ok(txHash.value);
    }
  }
}
