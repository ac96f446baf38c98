/** The records the client returns (models/model.go). */
module Models {
  import opened Wrappers

  /** One reported transfer. */
  datatype ExtrinsicResponse = ExtrinsicResponse(
    recordType: string,   // Type
    status: string,
    txid: string,
    fromAddress: string,
    toAddress: string,
    amount: string,
    fee: string,
    signature: string,
    nonce: int,
    era: string,
    extrinsicIndex: int,
    eventIndex: int,
    extrinsicLength: int)

  /** A block; `extrinsic` is None where the Go slice is nil and Some where it is allocated, even if empty. */
  datatype BlockResponse = BlockResponse(
    height: int,
    parentHash: string,
    blockHash: string,
    timestamp: int,
    extrinsic: Option<seq<ExtrinsicResponse>>)
}
