# bifrost-go in Dafny

A model of the core of bifrost-go, a Go client library for Substrate chains, with proofs
about the model. It covers three layers.

- **Codecs (`expand/types.go`).** These are the hand-written SCALE decoders and encoders: a
  16-byte `Balance`, a count-prefixed `Vec` with a ceiling of 5000, the legacy `Address`,
  `U32`, the four-arm `GenericMultiAddress` (decode, encode and `ToAddress`), and the
  `AccountInfoWithProviders` byte layout.
  - The decoder stream is a `Scale.Decoder` class. It holds the input and a position that
    every read advances. A short read consumes what is left and fails, as `bytes.Reader` does.
  - Every decoder is a class whose fields are updated in place.
  - Every decoder states how many bytes it consumes.
- **Block and extrinsic reconstruction (`client/block.go`, and the older copy in
  `client/client.go`).** Transfer events are matched to `extrinsics[phase]`, and one record
  is built per event, in event order. The fee is queried against the parent hash. The
  helpers covered are the transaction id, era, signature precedence, encoded length and
  block timestamp.
- **Client state and transaction assembly (`client/client.go`, `client/tx.go`,
  `client/account.go`).**
  - `checkRuntimeVersion` is a state machine: one reconnect on a closed connection, and a
    metadata refresh only when the spec version changes.
  - `GetGenesisHash` memoises its result.
  - `NewCall` (with its section/method swap), `DecodeToPub`, `GetSignatureOptions` and the
    step order of `AuthorTransferAsset`.
  - `GetAccountInfo` chooses a storage layout from the chain name.

`client/client.go` and `client/block.go` are two versions of one client, so they are two
modules. `ClientV1` covers `client.go` and `account.go`; `ClientV2` covers `block.go` and
`tx.go`. The helpers the two versions share word for word are in `Extrinsics`.

The node is a `Rpc.Node` value: one function per RPC, each mapping a request to a success
or an error. The foreign libraries are a `Chain.Library` value of functions: SCALE
encoders, blake2b, event decoding, storage keys, ss58/base58, the compact codec and
signing. Both client classes keep a `trace` of the RPC calls they make. That trace lets
the contracts say "no RPC", "at most one reconnect", "fee queried at the parent hash" and
"submitted at most once, last".

Modules, in dependency order:
- `Wrappers`: Option and Result.
- `Bytes`: hex, little-endian values, int64 truncation, Go's `/` and `%`, ASCII lower-casing, substring search.
- `Scale`: the decoder and encoder streams.
- `Chain`: library types and oracles.
- `Expand`: `expand/types.go`.
- `Rpc`: the node and the call trace.
- `Models`: `models/model.go`.
- `Extrinsics`: the shared helpers.
- `ClientV1` and `ClientV2`.

## Model

| member | source | states |
|---|---|---|
| Scale.Decoder.Read | expand/types.go:26-30 | reading n bytes succeeds iff n bytes remain; on success the data are exactly the next n bytes and the position moves by n; a short read consumes the rest of the stream and fails |
| Scale.Decoder.ReadOneByte | expand/types.go:81-84 | succeeds iff the stream is not exhausted, returning the next byte and advancing by one; an empty stream is left as it is |
| Scale.Decoder.DecodeWith | expand/types.go:51-54 | a library decode run on the bytes ahead; the position advances by exactly the bytes the decode consumed |
| Scale.Encoder.Write | expand/types.go:159-164 | encoding appends exactly the given bytes to the output |
| Bytes.Hex | expand/types.go:85 | `BytesToHex` yields two characters per byte |
| Bytes.HexInjective | expand/types.go:92 | distinct byte strings have distinct hex renderings |
| Bytes.HexByteIsFF | expand/types.go:85-86 | the one-byte hex is "ff" exactly when the byte is 0xff |
| Bytes.HexByteInjective | expand/types.go:85 | two bytes with the same two-digit hex are the same byte |
| Bytes.SharpX | client/block.go:116-117 | `%#x` of an empty slice is empty; otherwise it is "0x" followed by two hex digits per byte |
| Bytes.Decimal | client/block.go:115 | `big.Int.String()` of a natural number is a non-empty string of decimal digits, without a leading zero unless the number is 0, whose decimal value is the number |
| Bytes.SharpXInjective | client/block.go:116-117 | the `%#x` rendering of an address determines the address |
| Bytes.LittleEndianOfBytes | expand/types.go:115 | little-endian encoding to a width the value fits in, decoded again, gives the value back |
| Bytes.BytesOfLittleEndian | expand/types.go:115 | little-endian decoding, re-encoded to the same width, gives the bytes back |
| Bytes.ToInt64 | expand/types.go:55 | `Int64()` keeps values below 2^63, otherwise wraps modulo 2^64 into the signed range |
| Bytes.GoRem | client/block.go:255 | Go's truncating remainder: a = q*b + r, \|r\| < b, and r has the sign of a |
| Bytes.Lower | client/account.go:37 | lower-casing keeps the length and maps every character on its own |
| Bytes.LowerIdempotent | client/account.go:37 | lower-casing twice is lower-casing once |
| Bytes.ContainsAt | client/client.go:72 | `strings.Contains` holds iff the substring occurs at some index |
| Chain.HashHex | client/client.go:153-154 | `Hash.Hex()` is "0x" followed by 64 characters, each a lower-case hex digit |
| Chain.Extrinsic.IsSigned | client/block.go:199 | an extrinsic is signed exactly when bit 0x80 of its version byte is set |
| Chain.NewExtrinsic | client/tx.go:41 | a new extrinsic is unsigned and carries the given call |
| Chain.FindCallIndex | client/tx.go:82-85 | the lookup succeeds iff the name is in the metadata, and yields its entry |
| Expand.Balance.Decode | expand/types.go:23-40 | succeeds iff 16 bytes remain: it consumes exactly 16, keeps them in `reader` and sets `value` to 0 whatever the bytes; otherwise it reports the short read, consumes the rest of the stream and leaves `value` |
| Expand.ZerosAreNotAllOnes | expand/types.go:32-36 | the sentinel is compared against a fresh zeroed buffer, whose hex is never the all-ff string |
| Expand.BalanceOfOne | expand/types.go:31-38 | the encoding of balance 1 decodes to 0, where the intended value is 1 |
| Expand.IntendedBalanceValue | expand/types.go:31-38 | the corrected value is read from the 16 bytes read: below 2^128, and 0 for the all-ff sentinel |
| Expand.IntendedBalanceRoundTrip | expand/types.go:31-38 | every balance below 2^128-1, written as 16 little-endian bytes, is read back by the corrected decode |
| Expand.HexAllOnes | expand/types.go:33 | the hex of k bytes 0xff is 2k characters 'f' |
| Expand.AllOnesBytes | expand/types.go:33 | the 16 bytes 0xff render as the sentinel string |
| Expand.LittleEndianAllOnes | expand/types.go:38 | k bytes 0xff are 256^k - 1 as a little-endian number |
| Expand.LittleEndianMax16 | expand/types.go:38 | sixteen bytes 0xff are 2^128 - 1, the one value the sentinel hides |
| Expand.Elements | expand/types.go:59-71 | the element run has exactly n values when every element decodes, fewer when one fails, and never reads past the input |
| Expand.ElementsStop | expand/types.go:66-69 | after the first failing element, no later element is read |
| Expand.VecLength | expand/types.go:55 | `int(count.Int64())` is the count itself up to 5000, lies in the int64 range, and differs from the count by a multiple of 2^64; a length above 5000 comes only from a count above 5000 |
| Expand.ParseVec | expand/types.go:49-73 | a successful vector holds at most 5000 values, exactly the declared positive count of them; a failed one holds fewer than 5000 |
| Expand.VecCeiling | expand/types.go:55-58 | a length above 5000 fails having consumed only the count, before any element; a length of exactly 5000 passes the check |
| Expand.IntendedParseVec | expand/types.go:49-73 | the corrected decode refuses every count above 5000 having read only the count; when it succeeds it holds exactly the declared number of elements |
| Expand.ParseVecAgreesBelowWrap | expand/types.go:55-58 | for every count below 2^63 the code as written decodes exactly as the corrected one |
| Expand.IntendedVecLength | expand/types.go:55-58 | the intended ceiling accepts a count iff it is at most 5000, and then the length is the count |
| Expand.VecLengthAgrees | expand/types.go:55-58 | for counts up to 5000, including exactly 5000, the code's length is the count and is accepted |
| Expand.VecLengthWraps | expand/types.go:55 | a count of 2^64+1 becomes length 1 and 2^63 becomes negative, though both exceed the ceiling |
| Expand.HugeCountDecodesEmpty | expand/types.go:55-59 | a declared count of 2^63 passes the ceiling check and decodes as an empty vector with no error |
| Expand.Vec.ProcessVec | expand/types.go:49-73 | the error, the values appended after the existing ones, and the bytes consumed are exactly those of ParseVec on the bytes ahead |
| Expand.Vec.AppendElements | expand/types.go:59-71 | a length of 0 or less succeeds with no change, even for a non-struct element; a positive length with a non-struct element fails before reading; otherwise the old values are followed by the decoded run, in stream order, up to the first failure |
| Expand.Address.Decode | expand/types.go:80-102 | `accountLength` is the hex of the first byte. A first byte 0xff without NoPalletIndices consumes 33 bytes and the value is the hex of the next 32. Any other first byte consumes 32 bytes and the value is the hex of those 32. Each short read is reported with its own width. On success the value has 64 characters |
| Expand.LittleEndianFour | expand/types.go:115 | `binary.LittleEndian.Uint32` is the little-endian value of the four bytes |
| Expand.U32.Decode | expand/types.go:109-117 | succeeds iff 4 bytes remain, consuming 4 and setting the value to their little-endian number; otherwise the value is unchanged |
| Expand.Fixed | expand/types.go:142-148 | a fixed-width arm decodes iff n bytes remain, and yields exactly them |
| Expand.ParseMultiAddress | expand/types.go:135-157 | a decoded address carries the discriminant byte as its tag; a discriminant above 3 fails after consuming that byte |
| Expand.MultiAddressRoundTrip | expand/types.go:135-193 | every arm (AccountID, compact Index, H256, H160), written as discriminant then payload, decodes back to itself and consumes exactly what was written |
| Expand.NewAccountID | expand/types.go:222-223 | an account id is the first 32 bytes of its input |
| Expand.GenericMultiAddress.Value | expand/types.go:126-133 | the address has a value iff `types` is 0..3, and its tag is `types` |
| Expand.GenericMultiAddress.Decode | expand/types.go:135-157 | consumes what ParseMultiAddress consumes; succeeds iff it decodes; only the decoded arm and `types` change; a failure or a discriminant above 3 leaves `types` (and for the latter every field) unchanged |
| Expand.GenericMultiAddress.Encode | expand/types.go:159-193 | succeeds iff `types` is 0..3, writing the discriminant and that arm; otherwise it writes the discriminant byte (types mod 256) and then reports the unsupported type |
| Expand.EncodeThenDecode | expand/types.go:135-193 | for types 0..3, decoding what Encode wrote gives back the same address and consumes exactly the bytes written |
| Expand.GenericMultiAddress.ToAddress | expand/types.go:217-224 | a non-AccountID address gives the empty address; an AccountID gives the 32 bytes of `0x00 ++ AccountId`, so the id shifted right by one byte |
| Expand.GenericMultiAddress.IntendedToAddress | expand/types.go:217-224 | the corrected conversion carries the account id unchanged |
| Expand.ToAddressShiftsAccountId | expand/types.go:221-223 | any account id whose first byte is not zero comes out of ToAddress changed, and out of the corrected conversion unchanged |
| Expand.ProvidersLayoutBytes | expand/types.go:237-248 | the layout is 80 bytes: four u32 fields and four u128 balances |
| Expand.ParseProvidersLayout | expand/types.go:237-248 | the layout decodes iff 80 bytes are available, consuming 80 |
| Expand.ProvidersLayoutRoundTrip | expand/types.go:237-248 | every record written in declared field order decodes back to itself |
| Rpc.FeeQuery | client/block.go:100-101 | an event whose phase is in range queries the fee for exactly the extrinsic at that phase, at the given hash, once; an out-of-range event queries nothing |
| Rpc.FeesQueriedAtAppend | client/block.go:96-127 | calls that all query the fee at one hash still do so when concatenated |
| Rpc.ExtendedTransitive | client/block.go:96-127 | extending the call log by fee queries at one hash is transitive |
| Extrinsics.TxId | client/block.go:158-166 | fails iff encoding the extrinsic fails; otherwise it is "0x" followed by 64 hex digits |
| Extrinsics.TxIdIdentifiesDigest | client/block.go:158-166 | equal transaction ids mean equal blake2b digests of the encodings |
| Extrinsics.Era | client/block.go:168-174 | fails iff encoding the era fails; the result is empty iff the encoding is empty, and is otherwise "0x" plus two lower-case hex digits per byte |
| Extrinsics.LengthBuffer | client/block.go:189-214 | a signed extrinsic whose signature does not encode fails with "failed to encode Signature" before the method is tried. A method that does not encode then fails with "failed to encode Method". A buffer starts with the version byte, and for an unsigned extrinsic the rest is the encoded call |
| Extrinsics.EraIdentifiesEncoding | client/block.go:168-174 | two eras render alike iff their encodings are equal |
| Extrinsics.PrefixedHex | client/block.go:178 | `Hex()` of a signature is "0x" followed by two characters per byte |
| Extrinsics.Signature | client/block.go:176-187 | fails, with the no-signature error, iff none of Ecdsa, Ed25519 and Sr25519 is set |
| Extrinsics.SignatureIsFirstPresent | client/block.go:176-187 | the signature is the first present one in the order Ecdsa, Ed25519, Sr25519 |
| Extrinsics.LengthIsSumOfParts | client/block.go:189-216 | the buffer is written iff the signature (when signed) and the call encode; its length is 1 for the version, plus the signature when signed, plus the call |
| Extrinsics.GetLength | client/block.go:189-216 | the length is the size of that buffer, or its error |
| Extrinsics.TxDataOf | client/block.go:137-156 | the tx data succeed iff txid, era, signature and length all do, and then hold exactly those; a txid failure is the error reported |
| Extrinsics.TxDataFromExtrinsic | client/block.go:137-156 | the step-by-step assembly agrees with TxDataOf |
| Extrinsics.PartialFee | client/block.go:218-232 | the fee succeeds iff the reply carries a string `partialFee`, and is that string |
| Extrinsics.FirstMatch | client/block.go:243-253 | finds the first extrinsic whose call index matches, with none before it; or reports that none matches |
| Extrinsics.FirstMatchIs | client/block.go:243-253 | a matching index with no match before it is the first match |
| Extrinsics.FirstMatchNone | client/block.go:243-253 | without any match, the search finds nothing |
| Extrinsics.FirstMatchExtends | client/block.go:243-253 | extrinsics after the first match do not change it |
| Extrinsics.UnixSeconds | client/block.go:254-255 | the seconds are the floor of msec/1000 |
| Extrinsics.UnixSecondsIsFloor | client/block.go:255 | this equals Euclidean division by 1000 |
| Extrinsics.BlockTimestamp | client/block.go:234-257 | nil metadata panics; a missing `Timestamp.set` is an error; no matching extrinsic gives 0; otherwise the compact argument of the first match, truncated to int64, divided by 1000, or its decode error |
| Extrinsics.LaterMatchesIgnored | client/block.go:243-253 | once a match exists, appending extrinsics does not change the timestamp |
| Extrinsics.GetBlockTimestamp | client/block.go:234-257 | the loop with continue/break computes BlockTimestamp |
| Extrinsics.MetadataAfterFetch | client/block.go:75-78 | the cached metadata is set iff the fetch succeeds |
| Extrinsics.TransferEvents | client/block.go:75-94 | a metadata fetch failure aborts event retrieval with that error |
| Extrinsics.Record | client/block.go:111-126 | the record is a successful "transfer" whose event and extrinsic index are the phase. Its addresses are equal iff the event's sender and receiver are. Its amount reads back as the event's value and its nonce lies in the int64 range. Txid, era, signature, length and fee are the ones given |
| Extrinsics.Transfer | client/block.go:96-126 | an event whose phase is out of range fails with that phase. A record exists iff the phase is in range, the fee at the given hash is a string and the tx data succeed. The record is a successful "transfer" whose event and extrinsic index are the phase and whose amount is the decimal value. Its fee is the queried fee, its addresses are `%#x` and its nonce is the int64 nonce |
| Extrinsics.Reconstruct | client/block.go:96-127 | a successful reconstruction has one record per transfer event |
| Extrinsics.ReconstructSucceeds | client/block.go:96-127 | reconstruction succeeds iff every event's record succeeds |
| Extrinsics.ReconstructAllOk | client/block.go:96-127 | if every event's record succeeds, so does the reconstruction |
| Extrinsics.ReconstructInOrder | client/block.go:96-127 | record k is the record built from event k |
| Extrinsics.ReconstructStep | client/block.go:96-127 | one more event appends its record, or stops with its error |
| Extrinsics.ReconstructFailsAt | client/block.go:96-127 | a failure on a prefix of the events is the failure of the whole call |
| Extrinsics.PhaseOutOfRangeFails | client/block.go:97-99 | any event whose phase is at least the number of extrinsics aborts the whole call with no records |
| Extrinsics.ReconstructRecords | client/block.go:111-126 | every record is a successful "transfer" at its event's phase, with the fee queried at the given hash |
| ClientV1.FetchVersion | client/client.go:70-85 | the version is fetched once. Any error except a closed connection is returned with no change and no further call. A closed connection causes exactly one reconnect, and a retry only if the reconnect succeeds. A successful reconnect replaces the connection even when the retry fails |
| ClientV1.RuntimeCheck | client/client.go:69-98 | on success the chain name and transaction version are overwritten. Metadata is fetched iff the spec version differs, and the spec version changes only after that fetch succeeds. A failed fetch clears the metadata and keeps the old spec version. The check succeeds iff the version fetch and any needed metadata fetch succeed. A non-reconnect error changes nothing |
| ClientV1.CheckSettles | client/client.go:88-96 | after a successful check, repeating it against the same node fetches no metadata |
| ClientV1.FailedFetchIsRetried | client/client.go:90-95 | after a failed metadata fetch, the next check fetches metadata again |
| ClientV1.Client.FetchRuntimeVersion | client/client.go:70-85 | the class method returns FetchVersion's version, changes only the connection and logs its calls |
| ClientV1.Client.CheckRuntimeVersion | client/client.go:69-98 | the fields become RuntimeCheck's new state; the error and the calls logged are RuntimeCheck's |
| ClientV1.Client.GetGenesisHash | client/client.go:103-113 | a cached hash is returned with no RPC and no change; otherwise one block-hash call is made, whose error returns "" and caches nothing, and whose success caches and returns the hash |
| ClientV1.Client.GenesisHashTwice | client/client.go:103-113 | a second call returns the first non-empty result again, with at most one RPC in all |
| ClientV1.TxDataAsWritten | client/client.go:248-266 | this version's tx data always fail with a panic |
| ClientV1.AsSlice | client/client.go:222 | the response list is nil iff no record was appended |
| ClientV1.NoTransferIsReported | client/client.go:207-220 | with this version's tx data, a block with any transfer event fails, and a successful parse reports no records |
| ClientV1.FixedTxDataReports | client/client.go:207-238 | with the corrected tx data, in-range events with fees and tx data give one record per event |
| ClientV1.Client.TransferRecord | client/client.go:207-237 | one loop iteration computes Transfer, changes no fields and queries at most one fee, at the parent hash |
| ClientV1.Client.TransferRecords | client/client.go:207-238 | the loop computes Reconstruct, changes no fields and only queries fees at the parent hash |
| ClientV1.Client.FetchEvents | client/client.go:180-199 | computes TransferEvents, caches the fetched metadata and logs exactly the event calls |
| ClientV1.ParseByStorage | client/client.go:174-241 | an events error is returned first, then a block-time error. The parse succeeds iff events, block time and records all do, and then yields that time and those records |
| ClientV1.Client.ParseExtrinsicByStorage | client/client.go:174-241 | computes ParseByStorage (events, timestamp, then records), caches the fetched metadata, and queries fees only at the parent hash |
| ClientV1.Header | client/client.go:149-154 | the response starts with timestamp 0, no records and the block's height |
| ClientV1.BlockByHash | client/client.go:136-163 | a failed runtime check is returned as is; a response carries the block's height, its hash and its parent's hash |
| ClientV1.EmptyBlockIsHeader | client/client.go:156-162 | a block without extrinsics is returned with timestamp 0 and no records |
| ClientV1.NoBlockHasTransfers | client/client.go:136-163 | as written, no block response ever carries a record |
| ClientV1.StateAfterBlock | client/client.go:136-163 | GetBlockByHash leaves the runtime check's fields and the genesis hash, and changes the metadata only when the check passes and the block has extrinsics, to the refetched metadata |
| ClientV1.Client.GetBlockByHash | client/client.go:136-163 | computes BlockByHash from the old fields. The runtime check's calls come first. The block's transfers then query fees only at its parent hash |
| ClientV1.ProvidersLayout | client/account.go:37-39 | the providers layout is chosen iff the lower-cased chain name is "polkadot" or "kusama" |
| ClientV1.AccountKey | client/account.go:31 | no key is built from nil metadata; otherwise the key is built iff `CreateStorageKey` succeeds, and its error becomes a storage-key error |
| ClientV1.ProvidersLayoutIgnoresCase | client/account.go:37-39 | the layout choice ignores the case of the chain name |
| ClientV1.FromProviders | client/account.go:45-49 | the providers path copies the nonce and the four balances and drops the other header fields |
| ClientV1.ProvidersFromBytes | client/account.go:40-49 | a providers record read from its 80-byte layout projects to its nonce and balances |
| ClientV1.StorageReply | client/account.go:41-54 | a found record is returned with no error. A miss or a transport error is an error. A recovered panic returns nil and nil |
| ClientV1.LookupCalls | client/account.go:27-51 | the lookup calls the node once, `GetStorageLatest` under the account key, iff the address decodes, the metadata is not nil and the key is built; otherwise not at all |
| ClientV1.AccountLookup | client/account.go:27-57 | a bad address is an error before any key is built. Nil metadata panics and returns nil and nil. A key error is returned. "polkadot" and "kusama", in any case, read the providers layout; every other chain reads the plain one |
| ClientV1.StaleNilMetadataHidesAccounts | client/account.go:18-34 | when a failed fetch left the metadata nil and the spec version is unchanged, every lookup returns nil and nil |
| ClientV1.Client.GetAccountInfo | client/account.go:12-58 | the fields become the runtime check's state; a failed check is returned before the lookup; otherwise the reply is AccountLookup's and the node sees the check's calls followed by LookupCalls |
| ClientV2.ParseExtrinsicSpec | client/block.go:65-130 | zero extrinsics give an empty list; otherwise an events error is returned, or the records are Reconstruct's with fees at the parent hash |
| ClientV2.ParseExtrinsicRecords | client/block.go:96-127 | a successful parse has one record per transfer event, in event order, each a successful "transfer" at its phase |
| ClientV2.TransferReported | client/block.go:96-127 | in-range events whose fees and tx data succeed are all reported |
| ClientV2.Client.TransferRecord | client/block.go:96-126 | one iteration computes Transfer and queries at most one fee, at the parent hash |
| ClientV2.Client.TransferRecords | client/block.go:96-127 | the loop computes Reconstruct and only queries fees at the parent hash |
| ClientV2.Client.FetchEvents | client/block.go:75-94 | computes TransferEvents and caches the fetched metadata |
| ClientV2.Client.ParseExtrinsic | client/block.go:65-130 | computes ParseExtrinsicSpec; zero extrinsics make no call and leave the metadata; fees are queried only at the parent hash |
| ClientV2.BlockByHash | client/block.go:31-63 | a failed runtime check is returned. A response carries the block's height and hashes. Its timestamp comes from the metadata cached before the call. Its records are ParseExtrinsicSpec's, always a list and never nil |
| ClientV2.EmptyBlockHasEmptyList | client/block.go:51-73 | a block without extrinsics gives timestamp 0 and an empty, non-nil list |
| ClientV2.Client.GetBlockByHash | client/block.go:31-63 | computes BlockByHash; after a successful check the block is fetched first, and fees are queried only at its parent hash. The metadata is refetched (block.go:75) exactly when the check passes, the block has extrinsics and its timestamp is read; otherwise it is kept |
| ClientV2.EncodeAllSucceeds | client/tx.go:98-104 | encoding the arguments succeeds iff each does, and then the length is the sum of theirs |
| ClientV2.EncodeAllFailsAt | client/tx.go:98-102 | the first argument that fails to encode aborts the rest |
| ClientV2.CallFor | client/tx.go:81-110 | an unknown name is an error. Otherwise the call succeeds iff the arguments encode. Its section and method indices are swapped relative to the metadata. Its arguments are the metadata's method index followed by the encoded arguments |
| ClientV2.CallForLayout | client/tx.go:86-104 | a built call has first byte the method index and length 1 plus the sum of the argument encodings |
| ClientV2.NewCall | client/tx.go:81-110 | the loop returns CallFor's call, or an empty call with its error |
| ClientV2.TransferCallArguments | client/tx.go:36 | the transfer call's arguments are the method index, the receiver, then the amount |
| ClientV2.DecodeToPub | client/tx.go:112-118 | the decode fails iff the base58 data are not 35 bytes; otherwise it yields exactly bytes 1..32 |
| ClientV2.DecodeToPubIgnoresTrailer | client/tx.go:112-118 | the 2-byte trailer is never checked: any trailer yields the same key |
| ClientV2.SignatureOptionsOf | client/tx.go:55-79 | the first failure is returned, in the order genesis hash, account info, runtime check. The options have block hash = genesis hash and an immortal era. The nonce comes from the account and the tip from the argument. The versions come from the runtime version |
| ClientV2.TransferPlan | client/tx.go:12-47 | a key-pair error comes first, then a receiver error, then a metadata error; a built extrinsic is the signature of the transfer call, built against the fetched metadata, with the signer's options |
| ClientV2.TransferPlanSucceeds | client/tx.go:12-47 | the extrinsic is built iff key, receiver, metadata, options, call and signature all succeed |
| ClientV2.Client.AuthorTransferAsset | client/tx.go:12-53 | a key-pair or receiver error returns before any node call, leaving metadata and trace as they were. Otherwise the metadata is fetched and cached, and a plan that then fails logs only that fetch. The submit call is made once, last, only when every earlier step succeeded, and its reply decides the result |

## Left out

- sr25519 signing, blake2b, base58/ss58, SCALE encoding of library types, event decoding, storage keys and the compact codec are library code. They are fields of `Chain.Library` and are not interpreted. Compact decoding is assumed to invert compact encoding (`Scale.Lawful`).
- The transport and RPC layer (`GetRuntimeVersionLatest`, `GetMetadataLatest`, `GetBlock`, `GetBlockHash`, `GetStorageRaw`, `GetStorageLatest`, `payment_queryInfo`, `SubmitExtrinsic`, `reConnectWs`) is a `Rpc.Node` value. Each call is a fixed function of its request and connection, so replies that vary over time are not modelled.
- `New`, `SetPrefix`, both `GetBlockByNumber`s and the `MultiAddress` getters and setters hold no logic worth stating, so they are not modelled.
- `crypto/sr25519/sr25519.go`, `test/tx_test.go` and `test/rpc_test.go` are not part of this model.
- The version of `checkRuntimeVersion`, `GetGenesisHash` and `GetAccountInfo` that `client/block.go` and `client/tx.go` call is not among the modelled files. Their outcomes are parameters: `check` in `ClientV2.Client.GetBlockByHash` and `ClientV2.SignerContext` for `AuthorTransferAsset`. Their effect on the client's metadata and runtime version is not modelled, and the node calls they make (`GetRuntimeVersionLatest`, `GetMetadataLatest`, `GetBlockHash`, `GetStorageLatest`) are not recorded in `ClientV2.Client`'s `trace`.
- Error messages are reduced to error kinds. The `Vec` ceiling message prints 1000 while the limit is 5000, so only the kind `VecTooLong` is kept.
- A metadata fetch that fails leaves the cached metadata nil, as the Go assignment does, and the model does not distinguish a partly decoded metadata value from nil.
- Bytes.Lower: lower-cases ASCII letters only, not the whole of Unicode.
- Transfer events: only the `ApplyExtrinsic` phase is read, as both versions do; other phase kinds are not modelled.
- Expand.GenericMultiAddress.Decode: when the AccountID, H256 or H160 arm fails after a partial read, the library may already have written part of the arm. The model leaves the arm field as it was.
- Expand.GenericMultiAddress.Encode: the `&field == nil` tests never hold in Go, and their error is overwritten at once, so they are not modelled.
- Expand.GenericMultiAddress.Encode: the library's `Raw` field is never read or written by these methods and is kept only as a field.
- ClientV1.FromProviders: `types.AccountInfo` is reduced to nonce, refcount and balances, and the result's refcount is left 0 as in the Go zero value.
- ClientV1.Client.GetAccountInfo: a panic is modelled only where one is evident, namely a storage key built from nil metadata and a panicking storage decode (`StorageRead.StoragePanicked`).
- Scale.Encoder.Write: writes never fail, as with a `bytes.Buffer`; the writer errors that `Encode` returns (expand/types.go:160-164) are not modelled.
- Expand.GenericMultiAddress.Encode: an arm whose library encoder fails (expand/types.go:169-185) is not modelled; every arm value encodes.
- ClientV1.TxDataAsWritten: the nil-pointer write at client/client.go:249 is a Go panic that no `recover` catches (the only one is at client/account.go:18-22). It unwinds through `GetBlockByHash` to the caller. The model returns `Err(Panic)` in its place.
- Extrinsics.BlockTimestamp: with nil metadata, the call at client/block.go:237 is likewise an unrecovered panic, modelled as `Err(Panic)`.
- Concurrency: the `Client` objects are not safe for concurrent use, and the model is sequential.
- `time.Time` is reduced to whole seconds and `decimal.Decimal`/`big.Int` to `int`; the nanosecond part of the timestamp is dropped.

## Findings

| source | as written | input that shows it | evidently intended | confidence | as-written member | corrected member |
|---|---|---|---|---|---|---|
| expand/types.go:31-38 | the sentinel and the value come from a fresh zeroed buffer `c`, not from the 16 bytes read, so every balance decodes as 0 | the 16-byte little-endian encoding of 1 | the value is the little-endian number of the bytes read, with the all-ff sentinel giving 0 | high, not executed | Expand.BalanceOfOne | Expand.IntendedBalanceValue |
| client/client.go:248-249 | `txDataFromExtrinsic` assigns through a nil `*txData`, so any block with a transfer event panics, crashing the caller, and no record is ever reported | any block holding a `Balances_Transfer` event | the tx data are allocated first, as in `client/block.go:138` | high, not executed | ClientV1.NoTransferIsReported | ClientV1.FixedTxDataReports |
| expand/types.go:221-223 | `ToAddress` prepends a zero byte before taking 32 bytes, so the account id is shifted and its last byte lost | an AccountID address whose first byte is 0x01 | the account id is carried unchanged | medium, not executed | Expand.ToAddressShiftsAccountId | Expand.GenericMultiAddress.IntendedToAddress |
| expand/types.go:55-58 | the count passes through `Int64()` and `int` before the ceiling test, so huge counts wrap below 5000 | a compact count of 2^63 decodes as an empty vector, and 2^64+1 as a vector of one element | every count above 5000 is rejected | medium, not executed | Expand.HugeCountDecodesEmpty | Expand.IntendedParseVec |
