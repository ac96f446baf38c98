/**
 * The first version of the client (client/client.go, with client/account.go):
 * it talks to the node through c.C, keeps the runtime version and metadata it
 * last saw, memoises the genesis hash, reconstructs a block's transfers with
 * parseExtrinsicByStorage and reads account balances.
 */
module ClientV1 {
  import opened Bytes
  import opened Wrappers
  import opened Chain
  import opened Models
  import opened Rpc
  import opened Extrinsics
  import Expand

  /** The one error text on which checkRuntimeVersion reconnects and retries. */
  const ClosedConnection := "tls: use of closed connection"

  /** The client's fields; `conn` numbers the connection c.C holds, and reconnecting moves to the next. */
  datatype State = State(
    conn: nat, meta: Option<Metadata>, chainName: string,
    specVersion: int, transactionVersion: int, genesisHash: string)

  // ===========================================================================
  // checkRuntimeVersion

  /** How the runtime version was obtained: the version or the error, the connection in use, the calls made. */
  datatype VersionFetch = VersionFetch(version: Result<RuntimeVersion, Error>, conn: nat, calls: seq<RpcCall>)

  /** The first half of checkRuntimeVersion: ask, and on a closed connection reconnect once and ask again. */
  function FetchVersion(s: State, node: Node): (f: VersionFetch)
    ensures 1 <= |f.calls| <= 3 && f.calls[0] == GetRuntimeVersion(s.conn) && GetMetadata !in f.calls
    ensures Reconnect in f.calls <==> node.runtimeVersion(s.conn).Err? && Contains(node.runtimeVersion(s.conn).error, ClosedConnection)
    ensures forall i, j :: 0 <= i < j < |f.calls| ==> !(f.calls[i] == Reconnect && f.calls[j] == Reconnect)
    ensures node.runtimeVersion(s.conn).Err? && !Contains(node.runtimeVersion(s.conn).error, ClosedConnection) ==>
      f == VersionFetch(Err(RuntimeVersionFailed(node.runtimeVersion(s.conn).error)), s.conn, [GetRuntimeVersion(s.conn)])
    ensures f.conn == s.conn || f.conn == s.conn + 1
    ensures f.conn == s.conn + 1 <==> Reconnect in f.calls && node.reconnectError(s.conn).None?
    ensures f.version.Ok? ==> node.runtimeVersion(f.conn) == Ok(f.version.value)
  {
    var first := node.runtimeVersion(s.conn);
    if first.Ok? then VersionFetch(Ok(first.value), s.conn, [GetRuntimeVersion(s.conn)])
    else if !Contains(first.error, ClosedConnection) then
      VersionFetch(Err(RuntimeVersionFailed(first.error)), s.conn, [GetRuntimeVersion(s.conn)])
    else match node.reconnectError(s.conn)
      case Some(e) => VersionFetch(Err(ReconnectFailed(e)), s.conn, [GetRuntimeVersion(s.conn), Reconnect])
      case None =>
        var calls := [GetRuntimeVersion(s.conn), Reconnect, GetRuntimeVersion(s.conn + 1)];
        match node.runtimeVersion(s.conn + 1)
        case Err(e) => VersionFetch(Err(RuntimeVersionAfterReconnectFailed(e)), s.conn + 1, calls)
        case Ok(v) => VersionFetch(Ok(v), s.conn + 1, calls)
  }

  /** The outcome of checkRuntimeVersion: the new fields, the error, the calls made. */
  datatype CheckOutcome = CheckOutcome(state: State, err: Option<Error>, calls: seq<RpcCall>)

  /**
   * checkRuntimeVersion. Once a version is obtained the chain name and
   * transaction version are overwritten; the metadata is fetched only when the
   * spec version differs from the remembered one, and the spec version is
   * remembered only once that fetch has succeeded.
   */
  function RuntimeCheck(s: State, node: Node): (r: CheckOutcome)
    ensures var f := FetchVersion(s, node);
      && |f.calls| <= |r.calls| && r.calls[..|f.calls|] == f.calls
      && r.state.conn == f.conn
      && r.state.genesisHash == s.genesisHash
      && (f.version.Err? ==> r == CheckOutcome(s.(conn := f.conn), Some(f.version.error), f.calls))
      && (f.version.Ok? ==>
            r.state.chainName == f.version.value.specName && r.state.transactionVersion == f.version.value.transactionVersion)
      && (GetMetadata in r.calls <==> f.version.Ok? && f.version.value.specVersion != s.specVersion)
      && (GetMetadata !in r.calls ==> r.state.meta == s.meta && r.state.specVersion == s.specVersion)
      && (GetMetadata in r.calls && node.metadata.Err? ==>
            r.state.meta == None && r.state.specVersion == s.specVersion && r.err == Some(MetadataFailed(node.metadata.error)))
      && (r.state.specVersion != s.specVersion ==>
            f.version.Ok? && node.metadata.Ok? && r.state.specVersion == f.version.value.specVersion
            && r.state.meta == Some(node.metadata.value))
      && (r.err.None? <==> f.version.Ok? && (f.version.value.specVersion != s.specVersion ==> node.metadata.Ok?))
    ensures node.runtimeVersion(s.conn).Err? && !Contains(node.runtimeVersion(s.conn).error, ClosedConnection) ==>
      r.state == s && r.err.Some? && r.calls == [GetRuntimeVersion(s.conn)]
  {
    var f := FetchVersion(s, node);
    match f.version
    case Err(e) => CheckOutcome(s.(conn := f.conn), Some(e), f.calls)
    case Ok(v) =>
      var s1 := s.(conn := f.conn, transactionVersion := v.transactionVersion, chainName := v.specName);
      if v.specVersion == s.specVersion then CheckOutcome(s1, None, f.calls)
      else
        assert (f.calls + [GetMetadata])[..|f.calls|] == f.calls;
        match node.metadata
        case Err(e) => CheckOutcome(s1.(meta := None), Some(MetadataFailed(e)), f.calls + [GetMetadata])
        case Ok(m) => CheckOutcome(s1.(meta := Some(m), specVersion := v.specVersion), None, f.calls + [GetMetadata])
  }

  /** A successful check leaves the client needing no metadata for that version: checking again fetches none. */
  lemma CheckSettles(s: State, node: Node)
    requires RuntimeCheck(s, node).err.None?
    requires FetchVersion(RuntimeCheck(s, node).state, node).version == FetchVersion(s, node).version
    ensures GetMetadata !in RuntimeCheck(RuntimeCheck(s, node).state, node).calls
  {
  }

  /** A failed metadata fetch keeps the old spec version, so the next check that sees the same version fetches again. */
  lemma FailedFetchIsRetried(s: State, node: Node)
    requires GetMetadata in RuntimeCheck(s, node).calls && node.metadata.Err?
    requires FetchVersion(RuntimeCheck(s, node).state, node).version == FetchVersion(s, node).version
    ensures GetMetadata in RuntimeCheck(RuntimeCheck(s, node).state, node).calls
  {
  }

  // ===========================================================================
  // parseExtrinsicByStorage

  /** txDataFromExtrinsic as client/client.go writes it: it assigns through a nil *txData and so always panics. */
  function TxDataAsWritten(ext: Extrinsic): (r: Result<TxData, Error>)
    ensures r.Err? && r.error.Panic?
  {
    Err(Panic("invalid memory address or nil pointer dereference"))
  }

  /** Where `blockResp.Extrinsic` is nil until the first append. */
  function AsSlice(records: seq<ExtrinsicResponse>): (r: Option<seq<ExtrinsicResponse>>)
    ensures r.None? <==> records == []
  {
    if records == [] then None else Some(records)
  }

  /**
   * parseExtrinsicByStorage: the events, then the block time (with the
   * metadata just fetched), then one record per event, fees queried at the
   * parent block's hash; the result is the timestamp and Extrinsic field it
   * writes into the response.
   */
  function ParseByStorage(node: Node, lib: Library, blockHash: Hash, parentHex: string, exts: seq<Extrinsic>,
                          txData: Extrinsic -> Result<TxData, Error>)
    : (r: Result<(int, Option<seq<ExtrinsicResponse>>), Error>)
    ensures TransferEvents(node, lib, blockHash).Err? ==> r == Err(TransferEvents(node, lib, blockHash).error)
    ensures TransferEvents(node, lib, blockHash).Ok? && BlockTimestamp(MetadataAfterFetch(node), lib, exts).Err? ==>
      r == Err(BlockTimestamp(MetadataAfterFetch(node), lib, exts).error)
    ensures r.Ok? <==>
      && TransferEvents(node, lib, blockHash).Ok?
      && BlockTimestamp(MetadataAfterFetch(node), lib, exts).Ok?
      && Reconstruct(TransferEvents(node, lib, blockHash).value, exts, node.fee, parentHex, txData).Ok?
    ensures r.Ok? ==>
      && r.value.0 == BlockTimestamp(MetadataAfterFetch(node), lib, exts).value
      && r.value.1 == AsSlice(Reconstruct(TransferEvents(node, lib, blockHash).value, exts, node.fee, parentHex, txData).value)
  {
    match TransferEvents(node, lib, blockHash)
    case Err(e) => Err(e)
    case Ok(events) =>
      match BlockTimestamp(MetadataAfterFetch(node), lib, exts)
      case Err(e) => Err(e)
      case Ok(ts) =>
        match Reconstruct(events, exts, node.fee, parentHex, txData)
        case Err(e) => Err(e)
        case Ok(records) => Ok((ts, AsSlice(records)))
  }

  /**
   * The consequence of the nil record: this version never reports a
   * transfer. A block whose events hold a transfer fails, and one that
   * succeeds has a nil Extrinsic list.
   */
  lemma NoTransferIsReported(node: Node, lib: Library, blockHash: Hash, parentHex: string, exts: seq<Extrinsic>)
    ensures ParseByStorage(node, lib, blockHash, parentHex, exts, TxDataAsWritten).Ok? ==>
      ParseByStorage(node, lib, blockHash, parentHex, exts, TxDataAsWritten).value.1 == None
    ensures TransferEvents(node, lib, blockHash).Ok? && TransferEvents(node, lib, blockHash).value != [] ==>
      ParseByStorage(node, lib, blockHash, parentHex, exts, TxDataAsWritten).Err?
  {
    var events := TransferEvents(node, lib, blockHash);
    if events.Ok? && events.value != [] {
      ReconstructSucceeds(events.value, exts, node.fee, parentHex, TxDataAsWritten);
      assert !Transfer(events.value[0], exts, node.fee, parentHex, TxDataAsWritten).Ok?;
    }
  }

  /**
   * The same block read with the working txDataFromExtrinsic of
   * client/block.go: every event whose extrinsic is in range, has a fee and
   * encodes gives its record.
   */
  lemma FixedTxDataReports(node: Node, lib: Library, parentHex: string, events: seq<TransferEvent>, exts: seq<Extrinsic>)
    requires forall k :: 0 <= k < |events| ==> events[k].phase < |exts|
    requires forall k :: 0 <= k < |events| ==> node.fee(exts[events[k].phase], parentHex).PartialFee?
    requires forall k :: 0 <= k < |events| ==> TxDataOf(lib, exts[events[k].phase]).Ok?
    ensures Reconstruct(events, exts, node.fee, parentHex, TxDataWith(lib)).Ok?
    ensures |Reconstruct(events, exts, node.fee, parentHex, TxDataWith(lib)).value| == |events|
  {
    ReconstructSucceeds(events, exts, node.fee, parentHex, TxDataWith(lib));
  }

  /** The response GetBlockByHash (client/client.go) builds before any transfer is added. */
  function Header(b: Block, blockHash: Hash): (r: BlockResponse)
    ensures r.timestamp == 0 && r.extrinsic == None && r.height == b.number
  {
    BlockResponse(b.number, HashHex(b.parentHash), HashHex(blockHash), 0, None)
  }

  /**
   * GetBlockByHash: the runtime check, the block, its header fields, and
   * the timestamp and transfers only when the block has extrinsics.
   */
  function BlockByHash(s: State, node: Node, lib: Library, blockHash: Hash): (r: Result<BlockResponse, Error>)
    ensures RuntimeCheck(s, node).err.Some? ==> r == Err(RuntimeCheck(s, node).err.value)
    ensures r.Ok? ==>
      node.block(blockHash).Ok? && r.value.height == node.block(blockHash).value.number
      && r.value.blockHash == HashHex(blockHash) && r.value.parentHash == HashHex(node.block(blockHash).value.parentHash)
  {
    var chk := RuntimeCheck(s, node);
    if chk.err.Some? then Err(chk.err.value)
    else match node.block(blockHash)
      case Err(e) => Err(GetBlockFailed(e))
      case Ok(b) =>
        if |b.extrinsics| == 0 then Ok(Header(b, blockHash))
        else match ParseByStorage(node, lib, blockHash, HashHex(b.parentHash), b.extrinsics, TxDataAsWritten)
          case Err(e) => Err(e)
          case Ok((ts, records)) => Ok(Header(b, blockHash).(timestamp := ts, extrinsic := records))
  }

  /** The fields after GetBlockByHash: those the runtime check leaves, and the refetched metadata once transfers are read. */
  function StateAfterBlock(s: State, node: Node, blockHash: Hash): (t: State)
    ensures t == RuntimeCheck(s, node).state.(meta := t.meta)
    ensures t.genesisHash == s.genesisHash
    ensures t.meta != RuntimeCheck(s, node).state.meta ==>
      && RuntimeCheck(s, node).err.None? && node.block(blockHash).Ok? && |node.block(blockHash).value.extrinsics| > 0
      && t.meta == MetadataAfterFetch(node)
  {
    var chk := RuntimeCheck(s, node);
    if chk.err.None? && node.block(blockHash).Ok? && |node.block(blockHash).value.extrinsics| > 0
    then chk.state.(meta := MetadataAfterFetch(node))
    else chk.state
  }

  /** A block without extrinsics reads as its header: timestamp 0 and a nil list. */
  lemma EmptyBlockIsHeader(s: State, node: Node, lib: Library, blockHash: Hash)
    requires RuntimeCheck(s, node).err.None? && node.block(blockHash).Ok?
    requires node.block(blockHash).value.extrinsics == []
    ensures BlockByHash(s, node, lib, blockHash).Ok?
    ensures BlockByHash(s, node, lib, blockHash).value.timestamp == 0
    ensures BlockByHash(s, node, lib, blockHash).value.extrinsic == None
  {
  }

  /** This client never returns a block with a transfer in it. */
  lemma NoBlockHasTransfers(s: State, node: Node, lib: Library, blockHash: Hash)
    ensures BlockByHash(s, node, lib, blockHash).Ok? ==> BlockByHash(s, node, lib, blockHash).value.extrinsic == None
  {
    var chk := RuntimeCheck(s, node);
    if chk.err.None? && node.block(blockHash).Ok? {
      var b := node.block(blockHash).value;
      NoTransferIsReported(node, lib, blockHash, HashHex(b.parentHash), b.extrinsics);
    }
  }

  // ===========================================================================
  // GetAccountInfo

  /** Whether the chain is read with the providers layout: its lower-cased name is polkadot or kusama. */
  function ProvidersLayout(chainName: string): (r: bool)
    ensures r <==>
      || (|chainName| == 8 && forall i :: 0 <= i < 8 ==> LowerChar(chainName[i]) == "polkadot"[i])
      || (|chainName| == 6 && forall i :: 0 <= i < 6 ==> LowerChar(chainName[i]) == "kusama"[i])
  {
    var name := Lower(chainName);
    name == "polkadot" || name == "kusama"
  }

  /** The selection ignores case. */
  lemma ProvidersLayoutIgnoresCase(chainName: string)
    ensures ProvidersLayout(Lower(chainName)) == ProvidersLayout(chainName)
  {
    LowerIdempotent(chainName);
  }

  /** The providers path: nonce and the four balances copied, the three counters dropped. */
  function FromProviders(p: Expand.AccountInfoWithProviders): (a: AccountInfo)
    ensures a.nonce == p.nonce && a.data == p.data && a.refcount == 0
  {
    AccountInfo(p.nonce, 0, AccountData(p.data.free, p.data.reserved, p.data.miscFrozen, p.data.freeFrozen))
  }

  /** Read from storage bytes, the providers layout yields the account it was written from, less its counters. */
  lemma ProvidersFromBytes(p: Expand.AccountInfoWithProviders, rest: seq<byte>)
    ensures Expand.ParseProvidersLayout(Expand.ProvidersLayoutBytes(p) + rest).Decoded?
    ensures FromProviders(Expand.ParseProvidersLayout(Expand.ProvidersLayoutBytes(p) + rest).value)
      == AccountInfo(p.nonce, 0, p.data)
  {
    Expand.ProvidersLayoutRoundTrip(p, rest);
  }

  /** What GetAccountInfo returns: the account, or the error; both None when a panic was recovered. */
  datatype AccountReply = AccountReply(info: Option<AccountInfo>, err: Option<Error>)

  /** The reply for one storage read, through `project` into types.AccountInfo. */
  function StorageReply<T>(read: StorageRead<T>, project: T -> AccountInfo): (r: AccountReply)
    ensures r.info.Some? <==> read.StorageFound?
    ensures r.info.Some? ==> r.info.value == project(read.value) && r.err.None?
    ensures read.StorageMissing? || read.StorageFailed? ==> r.err.Some? && r.err.value.AccountInfoFailed?
    ensures read.StoragePanicked? ==> r == AccountReply(None, None)
  {
    match read
    case StorageFailed(e) => AccountReply(None, Some(AccountInfoFailed(e)))
    case StorageMissing => AccountReply(None, Some(AccountInfoFailed("<nil>")))
    case StorageFound(v) => AccountReply(Some(project(v)), None)
    case StoragePanicked(_) => AccountReply(None, None)
  }

  function Identity(a: AccountInfo): AccountInfo
  {
    a
  }

  /** The storage key of an account, or the error; None when the nil metadata makes CreateStorageKey panic. */
  function AccountKey(meta: Option<Metadata>, lib: Library, pub: seq<byte>): (r: Option<Result<StorageKey, Error>>)
    ensures r.None? <==> meta.None?
    ensures r.Some? ==> (r.value.Ok? <==> lib.createStorageKey(meta.value, "System", "Account", pub).Ok?)
    ensures r.Some? && r.value.Ok? ==> r.value.value == lib.createStorageKey(meta.value, "System", "Account", pub).value
    ensures r.Some? && r.value.Err? ==> r.value.error.StorageKeyFailed?
  {
    if meta.None? then None
    else match lib.createStorageKey(meta.value, "System", "Account", pub)
      case Err(e) => Some(Err(StorageKeyFailed(e)))
      case Ok(key) => Some(Ok(key))
  }

  /**
   * GetAccountInfo after its runtime check: the address, the key, and the
   * read in the layout the chain name selects.
   */
  function AccountLookup(meta: Option<Metadata>, chainName: string, node: Node, lib: Library, address: string): (r: AccountReply)
    ensures lib.ss58DecodeToPub(address).Err? ==> r.info.None? && r.err.Some? && r.err.value.AddressDecodeFailed?
    ensures lib.ss58DecodeToPub(address).Ok? && meta.None? ==> r == AccountReply(None, None)
    ensures lib.ss58DecodeToPub(address).Ok? && meta.Some? ==>
      var key := lib.createStorageKey(meta.value, "System", "Account", lib.ss58DecodeToPub(address).value);
      && (key.Err? ==> r == AccountReply(None, Some(StorageKeyFailed(key.error))))
      && (key.Ok? && ProvidersLayout(chainName) ==> r == StorageReply(node.providersInfo(key.value), FromProviders))
      && (key.Ok? && !ProvidersLayout(chainName) ==> r == StorageReply(node.accountInfo(key.value), Identity))
  {
    match lib.ss58DecodeToPub(address)
    case Err(e) => AccountReply(None, Some(AddressDecodeFailed(e)))
    case Ok(pub) =>
      match AccountKey(meta, lib, pub)
      case None => AccountReply(None, None)
      case Some(Err(e)) => AccountReply(None, Some(e))
      case Some(Ok(key)) =>
        if ProvidersLayout(chainName) then StorageReply(node.providersInfo(key), FromProviders)
        else StorageReply(node.accountInfo(key), Identity)
  }

  /**
   * The node calls AccountLookup makes: one GetStorageLatest, under the
   * account's key, once the address decodes and the key is built; none
   * before either of them.
   */
  function LookupCalls(meta: Option<Metadata>, lib: Library, address: string): (r: seq<RpcCall>)
    ensures |r| <= 1
    ensures r != [] <==>
      && lib.ss58DecodeToPub(address).Ok? && meta.Some?
      && lib.createStorageKey(meta.value, "System", "Account", lib.ss58DecodeToPub(address).value).Ok?
    ensures r != [] ==>
      r == [GetStorageLatest(lib.createStorageKey(meta.value, "System", "Account", lib.ss58DecodeToPub(address).value).value)]
  {
    match lib.ss58DecodeToPub(address)
    case Err(_) => []
    case Ok(pub) =>
      match AccountKey(meta, lib, pub)
      case Some(Ok(key)) => [GetStorageLatest(key)]
      case _ => []
  }

  /**
   * A metadata fetch that failed leaves c.Meta nil; while the spec version
   * stays the same no check fetches it again, and every account lookup then
   * panics inside CreateStorageKey and returns neither account nor error.
   */
  lemma StaleNilMetadataHidesAccounts(s: State, node: Node, lib: Library, address: string)
    requires s.meta.None? && RuntimeCheck(s, node).err.None?
    requires FetchVersion(s, node).version.value.specVersion == s.specVersion
    requires lib.ss58DecodeToPub(address).Ok?
    ensures AccountLookup(RuntimeCheck(s, node).state.meta, RuntimeCheck(s, node).state.chainName, node, lib, address)
      == AccountReply(None, None)
  {
  }

  // ===========================================================================
  // The client

  class Client {
    var conn: nat
    var meta: Option<Metadata>
    var chainName: string
    var specVersion: int
    var transactionVersion: int
    var genesisHash: string
    var trace: seq<RpcCall>   // the calls made to the node, oldest first

    function Fields(): State
      reads this
    {
      State(conn, meta, chainName, specVersion, transactionVersion, genesisHash)
    }

    /** new(Client): every field at its zero value. */
    constructor ()
      ensures Fields() == State(0, None, "", 0, 0, "") && trace == []
    {
      conn, meta, chainName := 0, None, "";
      specVersion, transactionVersion, genesisHash := 0, 0, "";
      trace := [];
    }

    /** The first half of checkRuntimeVersion: the version, reconnecting once on a closed connection. */
    method FetchRuntimeVersion(node: Node) returns (v: Result<RuntimeVersion, Error>)
      modifies this
      ensures var f := FetchVersion(old(Fields()), node);
        v == f.version && Fields() == old(Fields()).(conn := f.conn) && trace == old(trace) + f.calls
    {
      var first := node.runtimeVersion(conn);
      trace := trace + [GetRuntimeVersion(conn)];
      if first.Ok? {
        return Ok(first.value);
      }
      if !Contains(first.error, ClosedConnection) {
        return Err(RuntimeVersionFailed(first.error));
      }
      var cl := node.reconnectError(conn);
      trace := trace + [Reconnect];
      if cl.Some? {
        return Err(ReconnectFailed(cl.value));
      }
      conn := conn + 1;
      var second := node.runtimeVersion(conn);
      trace := trace + [GetRuntimeVersion(conn)];
      if second.Err? {
        return Err(RuntimeVersionAfterReconnectFailed(second.error));
      }
      return Ok(second.value);
    }

    /** checkRuntimeVersion (client/client.go). */
    method CheckRuntimeVersion(node: Node) returns (err: Option<Error>)
      modifies this
      ensures var r := RuntimeCheck(old(Fields()), node);
        Fields() == r.state && err == r.err && trace == old(trace) + r.calls
    {
      var v := FetchRuntimeVersion(node);
      if v.Err? {
        return Some(v.error);
      }
      transactionVersion := v.value.transactionVersion;
      chainName := v.value.specName;
      var sv := v.value.specVersion;
      if sv != specVersion {
        var m := node.metadata;
        trace := trace + [GetMetadata];
        if m.Err? {
          meta := None;
          return Some(MetadataFailed(m.error));
        }
        meta := Some(m.value);
        specVersion := sv;
      }
      return None;
    }

    /** GetGenesisHash: the cached hash if there is one, else block 0's hash, cached on success. */
    method GetGenesisHash(node: Node) returns (h: string)
      modifies this
      ensures old(genesisHash) != "" ==> h == old(genesisHash) && trace == old(trace) && Fields() == old(Fields())
      ensures old(genesisHash) == "" ==> trace == old(trace) + [GetBlockHash(0)]
      ensures old(genesisHash) == "" && node.blockHash(0).Err? ==> h == "" && Fields() == old(Fields())
      ensures old(genesisHash) == "" && node.blockHash(0).Ok? ==>
        h == HashHex(node.blockHash(0).value) && Fields() == old(Fields()).(genesisHash := h)
    {
      if genesisHash != "" {
        return genesisHash;
      }
      var hash := node.blockHash(0);
      trace := trace + [GetBlockHash(0)];
      if hash.Err? {
        return "";
      }
      genesisHash := HashHex(hash.value);
      return HashHex(hash.value);
    }

    /** Two lookups in a row: once one has succeeded, the next answers the same without asking the node. */
    method GenesisHashTwice(node: Node) returns (first: string, second: string)
      modifies this
      ensures first != "" ==> second == first
      ensures first != "" ==> |trace| <= |old(trace)| + 1
      ensures node.blockHash(0).Ok? ==> first != "" && second == first
    {
      first := GetGenesisHash(node);
      ghost var mid := |trace|;
      second := GetGenesisHash(node);
      assert first != "" ==> |trace| == mid;
    }

    /**
     * parseExtrinsicByStorage (client/client.go); `parentHex` is the
     * response's ParentHash field, the hash the fees are queried at.
     */
    method ParseExtrinsicByStorage(node: Node, lib: Library, blockHash: Hash, parentHex: string, exts: seq<Extrinsic>,
                                   txData: Extrinsic -> Result<TxData, Error>)
      returns (r: Result<(int, Option<seq<ExtrinsicResponse>>), Error>)
      modifies this
      ensures r == ParseByStorage(node, lib, blockHash, parentHex, exts, txData)
      ensures Fields() == old(Fields()).(meta := MetadataAfterFetch(node))
      ensures ExtendedWithFeesAt(old(trace), trace, parentHex)
    {
      var events := FetchEvents(node, lib, blockHash);
      SplitCalls(old(trace), EventCalls(node, lib, blockHash));
      if events.Err? {
        return Err(events.error);
      }
      var ts := GetBlockTimestamp(meta, lib, exts);
      if ts.Err? {
        return Err(ts.error);
      }
      ghost var mid := trace;
      var records := TransferRecords(node, events.value, exts, parentHex, txData);
      ExtendedTransitive(old(trace), mid, trace, parentHex);
      if records.Err? {
        return Err(records.error);
      }
      return Ok((ts.value, AsSlice(records.value)));
    }

    /** One pass of the loop of parseExtrinsicByStorage: the bounds check, the fee, the transaction data, the record. */
    method TransferRecord(node: Node, tr: TransferEvent, exts: seq<Extrinsic>, parentHex: string,
                          txData: Extrinsic -> Result<TxData, Error>)
      returns (r: Result<ExtrinsicResponse, Error>)
      modifies this
      ensures r == Transfer(tr, exts, node.fee, parentHex, txData)
      ensures Fields() == old(Fields())
      ensures trace == old(trace) + FeeQuery(tr, exts, parentHex)
    {
      if !(|exts| > tr.phase) {
        return Err(PhaseOutOfRange(tr.phase));
      }
      var currentExt := exts[tr.phase];
      var reply := node.fee(currentExt, parentHex);
      trace := trace + [QueryFee(currentExt, parentHex)];
      var fee := Extrinsics.PartialFee(reply);
      if fee.Err? {
        return Err(fee.error);
      }
      var td := txData(currentExt);
      if td.Err? {
        return Err(td.error);
      }
      return Ok(Record(tr, currentExt, fee.value, td.value));
    }

    /** The loop of parseExtrinsicByStorage over the transfer events. */
    method TransferRecords(node: Node, events: seq<TransferEvent>, exts: seq<Extrinsic>, parentHex: string,
                           txData: Extrinsic -> Result<TxData, Error>)
      returns (r: Result<seq<ExtrinsicResponse>, Error>)
      modifies this
      ensures r == Reconstruct(events, exts, node.fee, parentHex, txData)
      ensures Fields() == old(Fields())
      ensures ExtendedWithFeesAt(old(trace), trace, parentHex)
    {
      var records: seq<ExtrinsicResponse> := [];
      ghost var fees: seq<RpcCall> := [];
      var i := 0;
      while i < |events|
        invariant 0 <= i <= |events|
        invariant Fields() == old(Fields())
        invariant trace == old(trace) + fees && FeesQueriedAt(fees, parentHex)
        invariant Reconstruct(events[..i], exts, node.fee, parentHex, txData) == Ok(records)
      {
        ReconstructStep(events, exts, node.fee, parentHex, txData, i, records);
        var record := TransferRecord(node, events[i], exts, parentHex, txData);
        AppendAssociates(old(trace), fees, FeeQuery(events[i], exts, parentHex));
        FeesQueriedAtAppend(fees, FeeQuery(events[i], exts, parentHex), parentHex);
        fees := fees + FeeQuery(events[i], exts, parentHex);
        if record.Err? {
          ReconstructFailsAt(events, exts, node.fee, parentHex, txData, i + 1);
          SplitCalls(old(trace), fees);
          return Err(record.error);
        }
        records := records + [record.value];
        i := i + 1;
      }
      assert events[..i] == events;
      SplitCalls(old(trace), fees);
      return Ok(records);
    }

    /** The metadata fetch, storage key, raw storage read and event decoding shared by the block readers. */
    method FetchEvents(node: Node, lib: Library, blockHash: Hash) returns (r: Result<seq<TransferEvent>, Error>)
      modifies this
      ensures r == TransferEvents(node, lib, blockHash)
      ensures Fields() == old(Fields()).(meta := MetadataAfterFetch(node))
      ensures trace == old(trace) + EventCalls(node, lib, blockHash)
    {
      var m := node.metadata;
      trace := trace + [GetMetadata];
      meta := MetadataAfterFetch(node);
      if m.Err? {
        return Err(MetadataFailed(m.error));
      }
      var key := lib.createStorageKey(m.value, "System", "Events", []);
      if key.Err? {
        return Err(StorageKeyFailed(key.error));
      }
      var raw := node.storageRaw(key.value, blockHash);
      trace := trace + [GetStorageRaw(key.value, blockHash)];
      if raw.Err? {
        return Err(StorageQueryFailed(raw.error));
      }
      var events := lib.decodeEvents(m.value, raw.value);
      if events.Err? {
        return Err(EventDecodeFailed(events.error));
      }
      return Ok(events.value);
    }

    /**
     * GetBlockByHash (client/client.go): the runtime check, the block, the
     * header fields, and the extrinsics only when the block has any.
     */
    method GetBlockByHash(node: Node, lib: Library, blockHash: Hash) returns (r: Result<BlockResponse, Error>)
      modifies this
      ensures r == BlockByHash(old(Fields()), node, lib, blockHash)
      ensures Fields() == StateAfterBlock(old(Fields()), node, blockHash)
      ensures var chk := RuntimeCheck(old(Fields()), node);
        |old(trace) + chk.calls| <= |trace| && trace[..|old(trace) + chk.calls|] == old(trace) + chk.calls
      ensures node.block(blockHash).Ok? ==>
        ExtendedWithFeesAt(old(trace) + RuntimeCheck(old(Fields()), node).calls, trace, HashHex(node.block(blockHash).value.parentHash))
    {
      var err := CheckRuntimeVersion(node);
      if err.Some? {
        return Err(err.value);
      }
      ghost var checked := trace;
      var block := node.block(blockHash);
      trace := trace + [GetBlock(blockHash)];
      SplitCalls(checked, [GetBlock(blockHash)]);
      if block.Err? {
        return Err(GetBlockFailed(block.error));
      }
      var b := block.value;
      var blockResp := BlockResponse(b.number, HashHex(b.parentHash), HashHex(blockHash), 0, None);
      if |b.extrinsics| > 0 {
        ghost var before := trace;
        var p := ParseExtrinsicByStorage(node, lib, blockHash, blockResp.parentHash, b.extrinsics, TxDataAsWritten);
        ExtendedTransitive(checked, before, trace, blockResp.parentHash);
        if p.Err? {
          return Err(p.error);
        }
        blockResp := blockResp.(timestamp := p.value.0, extrinsic := p.value.1);
      }
      return Ok(blockResp);
    }

    /**
     * GetAccountInfo (client/account.go). The deferred recover assigns a
     * local error but the results are unnamed, so a recovered panic returns
     * neither account nor error.
     */
    method GetAccountInfo(node: Node, lib: Library, address: string) returns (info: Option<AccountInfo>, err: Option<Error>)
      modifies this
      ensures Fields() == RuntimeCheck(old(Fields()), node).state
      ensures var chk := RuntimeCheck(old(Fields()), node);
        chk.err.Some? ==> info == None && err == chk.err && trace == old(trace) + chk.calls
      ensures var chk := RuntimeCheck(old(Fields()), node);
        chk.err.None? ==> AccountReply(info, err) == AccountLookup(chk.state.meta, chk.state.chainName, node, lib, address)
      ensures var chk := RuntimeCheck(old(Fields()), node);
        chk.err.None? ==> trace == old(trace) + chk.calls + LookupCalls(chk.state.meta, lib, address)
    {
      err := CheckRuntimeVersion(node);
      if err.Some? {
        return None, err;
      }
      var pub := lib.ss58DecodeToPub(address);
      if pub.Err? {
        return None, Some(AddressDecodeFailed(pub.error));
      }
      if meta.None? {
        // CreateStorageKey dereferences the nil metadata; the panic is recovered.
        return None, None;
      }
      var storage := lib.createStorageKey(meta.value, "System", "Account", pub.value);
      if storage.Err? {
        return None, Some(StorageKeyFailed(storage.error));
      }
      var reply: AccountReply;
      if ProvidersLayout(chainName) {
        var read := node.providersInfo(storage.value);
        trace := trace + [GetStorageLatest(storage.value)];
        reply := StorageReply(read, FromProviders);
      } else {
        var read := node.accountInfo(storage.value);
        trace := trace + [GetStorageLatest(storage.value)];
        reply := StorageReply(read, Identity);
      }
      return reply.info, reply.err;
    }
  }
}
