/**
 * The go-substrate-rpc-client types the client works with, reduced to the
 * fields it reads, and the library functions it calls (encoders, blake2b,
 * the event decoder, storage-key construction, the address codecs). The
 * library is not part of this model: its functions are the fields of a
 * `Library` value passed to the operations that use them.
 */
module Chain {
  import opened Bytes
  import opened Wrappers
  import Scale

  type Hash = s: seq<byte> | |s| == 32 witness Zeros(32)

  type U32Value = n: nat | n < TWO_32
  type U128Value = n: nat | n < TWO_128

  /** types.Hash.Hex (hexutil.Encode): "0x" and 64 hex digits. */
  function HashHex(h: Hash): (r: string)
    ensures |r| == 66 && r[..2] == "0x"
    ensures forall i :: 2 <= i < |r| ==> r[i] in HexDigits
  {
    HexDigitsOnly(h);
    "0x" + Hex(h)
  }

  datatype CallIndex = CallIndex(sectionIndex: byte, methodIndex: byte)

  datatype Call = Call(callIndex: CallIndex, args: seq<byte>)

  /** The empty types.Call{} returned beside an error. */
  const EmptyCall := Call(CallIndex(0, 0), [])

  /** types.MultiSignature: which algorithm's signature is present, and its bytes. */
  datatype MultiSignature = MultiSignature(
    isEd25519: bool, asEd25519: seq<byte>,
    isSr25519: bool, asSr25519: seq<byte>,
    isEcdsa: bool, asEcdsa: seq<byte>)

  datatype ExtrinsicEra = ExtrinsicEra(isImmortalEra: bool, isMortalEra: bool, mortal: seq<byte>)

  const ImmortalEra := ExtrinsicEra(true, false, [])

  /** The signature block of an extrinsic (ExtrinsicSignatureV4, expand/types.go). */
  datatype ExtrinsicSignature = ExtrinsicSignature(
    signer: seq<byte>, signature: MultiSignature, era: ExtrinsicEra, nonce: nat, tip: nat)

  const EmptySignature := ExtrinsicSignature([], MultiSignature(false, [], false, [], false, []), ExtrinsicEra(false, false, []), 0, 0)

  datatype Extrinsic = Extrinsic(version: byte, signature: ExtrinsicSignature, call: Call)
  {
    /** The signed bit 0x80 of the version byte. */
    predicate IsSigned()
      ensures IsSigned() <==> (version as bv8) & 0x80 == 0x80
    {
      version >= 0x80
    }
  }

  /** types.NewExtrinsic: an unsigned version-4 extrinsic carrying the call. */
  function NewExtrinsic(c: Call): (e: Extrinsic)
    ensures !e.IsSigned() && e.call == c
  {
    Extrinsic(4, EmptySignature, c)
  }

  /** Runtime metadata, seen only as its call-name table. */
  datatype Metadata = Metadata(calls: map<string, CallIndex>, revision: nat)

  /** Metadata.FindCallIndex. */
  function FindCallIndex(m: Metadata, name: string): (r: Result<CallIndex, string>)
    ensures r.Ok? <==> name in m.calls
    ensures r.Ok? ==> r.value == m.calls[name]
  {
    if name in m.calls then Ok(m.calls[name]) else Err("method not found")
  }

  datatype RuntimeVersion = RuntimeVersion(specName: string, specVersion: U32Value, transactionVersion: U32Value)

  /** A Balances.Transfer event; `phase` is its Phase.AsApplyExtrinsic. */
  datatype TransferEvent = TransferEvent(phase: U32Value, from: Hash, to: Hash, value: U128Value)

  datatype Block = Block(number: U32Value, parentHash: Hash, extrinsics: seq<Extrinsic>)

  type StorageKey = seq<byte>

  datatype AccountData = AccountData(free: U128Value, reserved: U128Value, miscFrozen: U128Value, freeFrozen: U128Value)

  const ZeroAccountData := AccountData(0, 0, 0, 0)

  /**
   * types.AccountInfo, the legacy layout: the nonce, the library's reference
   * count header field, and the balances.
   */
  datatype AccountInfo = AccountInfo(nonce: U32Value, refcount: U32Value, data: AccountData)

  /** The outcome of GetStorageLatest into a typed target. */
  datatype StorageRead<+T> =
    | StorageFailed(message: string)   // transport or decode error
    | StorageMissing                   // ok == false: no value under the key
    | StorageFound(value: T)
    | StoragePanicked(message: string) // the decode panicked

  /** The JSON reply of payment_queryInfo, as far as getPartialFee looks at it. */
  datatype FeeReply =
    | FeeCallFailed(message: string)
    | PartialFeeAbsent
    | PartialFeeNotString
    | PartialFee(fee: string)

  /** A signing key pair (signature.KeyringPair); its contents are the library's business. */
  datatype KeyPair = KeyPair(uri: string, publicKey: seq<byte>)

  /** The arguments AuthorTransferAsset passes to NewCall: the receiver and a compact amount. */
  datatype CallArg = ReceiverArg(accountId: Hash) | AmountArg(amount: nat)

  /** types.SignatureOptions. */
  datatype SignatureOptions = SignatureOptions(
    blockHash: Hash, era: ExtrinsicEra, genesisHash: Hash, nonce: nat,
    specVersion: U32Value, tip: nat, transactionVersion: U32Value)

  /** The library functions the client calls; none of them is part of this model. */
  datatype Library = Library(
    encodeExtrinsic: Extrinsic -> Result<seq<byte>, string>,
    encodeSignature: ExtrinsicSignature -> Result<seq<byte>, string>,
    encodeCall: Call -> Result<seq<byte>, string>,
    encodeEra: ExtrinsicEra -> Result<seq<byte>, string>,
    blake2b256: seq<byte> -> Hash,
    compact: Scale.Compact,
    createStorageKey: (Metadata, string, string, seq<byte>) -> Result<StorageKey, string>,
    decodeEvents: (Metadata, seq<byte>) -> Result<seq<TransferEvent>, string>,
    ss58DecodeToPub: string -> Result<seq<byte>, string>,
    base58Decode: string -> seq<byte>,
    keyringPairFromSecret: (string, nat) -> Result<KeyPair, string>,
    multiAddressFromHexAccountID: string -> Result<Hash, string>,
    encodeArg: CallArg -> Result<seq<byte>, string>,
    sign: (Extrinsic, KeyPair, SignatureOptions) -> Result<Extrinsic, string>)

  /** The client-level errors, one per failing step. */
  datatype Error =
    | RuntimeVersionFailed(cause: string)
    | ReconnectFailed(cause: string)
    | RuntimeVersionAfterReconnectFailed(cause: string)
    | MetadataFailed(cause: string)
    | RuntimeCheckFailed(cause: string)
    | GetBlockFailed(cause: string)
    | StorageKeyFailed(cause: string)
    | StorageQueryFailed(cause: string)
    | EventDecodeFailed(cause: string)
    | CallIndexNotFound(cause: string)
    | TimestampDecodeFailed
    | PhaseOutOfRange(phase: nat)
    | FeeFailed(cause: string)
    | TxIdFailed(cause: string)
    | EraFailed(cause: string)
    | NoSignature
    | LengthFailed(cause: string)
    | AddressDecodeFailed(cause: string)
    | AccountInfoFailed(cause: string)
    | ArgEncodeFailed(cause: string)
    | Base58LengthInvalid
    | GenesisHashFailed(cause: string)
    | KeyPairFailed(cause: string)
    | ReceiverFailed(cause: string)
    | SignFailed(cause: string)
    | SubmitFailed(cause: string)
    | Panic(cause: string)   // a Go runtime panic, which unwinds instead of returning

  /** The remote procedure calls the client makes, in the order it makes them. */
  datatype RpcCall =
    | GetRuntimeVersion(conn: nat)
    | Reconnect
    | GetMetadata
    | GetBlockHash(height: nat)
    | GetBlock(hash: Hash)
    | GetStorageRaw(key: StorageKey, at: Hash)
    | GetStorageLatest(key: StorageKey)
    | QueryFee(ext: Extrinsic, blockHash: string)
    | SubmitExtrinsic(ext: Extrinsic)
}
