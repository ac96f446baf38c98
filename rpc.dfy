/**
 * The node the client talks to. Every remote procedure call is an oracle: its
 * answer is a fixed function of the request (the runtime version also of the
 * connection it is asked on). Transport, JSON and the library's decoding of
 * the replies are not part of this model.
 */
module Rpc {
  import opened Wrappers
  import opened Chain
  import opened Bytes
  import Expand

  datatype Node = Node(
    runtimeVersion: nat -> Result<RuntimeVersion, string>,   // state_getRuntimeVersion on connection n
    reconnectError: nat -> Option<string>,                   // why replacing connection n failed, if it did
    metadata: Result<Metadata, string>,                      // state_getMetadata
    blockHash: nat -> Result<Hash, string>,                  // chain_getBlockHash(height)
    block: Hash -> Result<Block, string>,                    // chain_getBlock(hash)
    storageRaw: (StorageKey, Hash) -> Result<seq<byte>, string>,
    fee: (Extrinsic, string) -> FeeReply,                    // payment_queryInfo(ext, blockHash)
    accountInfo: StorageKey -> StorageRead<AccountInfo>,
    providersInfo: StorageKey -> StorageRead<Expand.AccountInfoWithProviders>,
    submit: Extrinsic -> Result<Hash, string>)               // author_submitExtrinsic

  /** Every fee query among `calls` is made at block `at`. */
  predicate FeesQueriedAt(calls: seq<RpcCall>, at: string)
  {
    forall k :: 0 <= k < |calls| && calls[k].QueryFee? ==> calls[k].blockHash == at
  }

  /** The fee query one transfer event causes: none when its phase is out of range. */
  function FeeQuery(tr: TransferEvent, exts: seq<Extrinsic>, at: string): (r: seq<RpcCall>)
    ensures FeesQueriedAt(r, at) && |r| <= 1
    ensures tr.phase < |exts| ==> r == [QueryFee(exts[tr.phase], at)]
    ensures tr.phase >= |exts| ==> r == []
  {
    if tr.phase < |exts| then [QueryFee(exts[tr.phase], at)] else []
  }

  /** Fee queries at one block stay at that block when two traces are joined. */
  lemma FeesQueriedAtAppend(a: seq<RpcCall>, b: seq<RpcCall>, at: string)
    requires FeesQueriedAt(a, at) && FeesQueriedAt(b, at)
    ensures FeesQueriedAt(a + b, at)
  {
    assert forall k :: |a| <= k < |a + b| ==> (a + b)[k] == b[k - |a|];
  }

  /** Appending calls in two steps is appending them at once. */
  lemma AppendAssociates(a: seq<RpcCall>, b: seq<RpcCall>, c: seq<RpcCall>)
    ensures (a + b) + c == a + (b + c)
  {
  }

  /** Splitting a trace at the end of what was there before. */
  lemma SplitCalls(a: seq<RpcCall>, b: seq<RpcCall>)
    ensures (a + b)[..|a|] == a && (a + b)[|a|..] == b
  {
  }

  /** `after` is `before` followed by calls among which every fee query is made at block `at`. */
  predicate ExtendedWithFeesAt(before: seq<RpcCall>, after: seq<RpcCall>, at: string)
  {
    |before| <= |after| && after[..|before|] == before && FeesQueriedAt(after[|before|..], at)
  }

  /** Two extensions in a row are one extension. */
  lemma ExtendedTransitive(a: seq<RpcCall>, b: seq<RpcCall>, c: seq<RpcCall>, at: string)
    requires ExtendedWithFeesAt(a, b, at) && ExtendedWithFeesAt(b, c, at)
    ensures ExtendedWithFeesAt(a, c, at)
  {
    assert c[..|a|] == b[..|a|];
    assert c[|a|..] == b[|a|..] + c[|b|..];
    FeesQueriedAtAppend(b[|a|..], c[|b|..], at);
  }
}
