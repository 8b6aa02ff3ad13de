/** Value types shared by the batched state fetch of the execution-layer client:
    block selectors, fetch descriptors, the RPC calls planned for them, the results
    assembled from the answers, errors, and the two opaque collaborators (the JSON
    decoder and the batch transport). */
module Types {

  datatype Option<T> = None | Some(value: T)

  datatype Result<T, E> = Ok(value: T) | Err(error: E)

  /** SH160, SH256 and HexBytes are byte strings on the wire. */
  type Address = seq<bv8>
  type H256 = seq<bv8>
  type Bytes = seq<bv8>

  /** A raw JSON value returned by the node, kept as its text. */
  type Raw = string

  function Zeros(n: nat): seq<bv8> {
    seq(n, _ => 0)
  }

  /** Which block a query is evaluated against. */
  datatype BlockSelector = Hash(hash: H256) | Number(number: nat) | Latest

  /** An access-list entry: an account and the storage slots wanted from it. */
  datatype AccessListItem = AccessListItem(address: Address, storageKeys: seq<H256>)

  /** What to fetch for one account. `addr` is the address the descriptor resolves to
      (eth_types' FetchState::get_addr); `code` asks for the bytecode of the given
      account; `accessList` asks for storage slots (and, on the proof path, a proof). */
  datatype FetchState = FetchState(addr: Option<Address>, code: Option<Address>, accessList: Option<AccessListItem>)

  /** Number of eth_getCode calls a descriptor asks for (on either path). */
  function CodeSlots(item: FetchState): nat {
    if item.code.Some? then 1 else 0
  }

  /** Number of storage keys a descriptor asks for. */
  function KeyCount(item: FetchState): nat {
    if item.accessList.Some? then |item.accessList.value.storageKeys| else 0
  }

  /** One JSON-RPC request of the batch, with its parameters. */
  datatype Call =
    | GetBalance(address: Address, block: BlockSelector)
    | GetTransactionCount(address: Address, block: BlockSelector)
    | GetCode(address: Address, block: BlockSelector)
    | GetStorageAt(address: Address, key: H256, block: BlockSelector)
    | GetProof(address: Address, keys: seq<H256>, block: BlockSelector)

  /** The JSON-RPC method name each call is sent under. */
  function MethodName(c: Call): string {
    match c
    case GetBalance(_, _) => "eth_getBalance"
    case GetTransactionCount(_, _) => "eth_getTransactionCount"
    case GetCode(_, _) => "eth_getCode"
    case GetStorageAt(_, _, _) => "eth_getStorageAt"
    case GetProof(_, _, _) => "eth_getProof"
  }

  datatype StorageResult = StorageResult(key: H256, value: H256, proof: seq<Bytes>)

  /** The account part of a result (eth_types' AccountResult). */
  datatype AccountResult = AccountResult(
    address: Address,
    accountProof: seq<Bytes>,
    balance: nat,
    codeHash: H256,
    nonce: nat,
    storageHash: H256,
    storageProof: seq<StorageResult>)

  /** AccountResult::default(): zero address and hashes, zero balance and nonce, no proofs. */
  function DefaultAccount(): AccountResult {
    AccountResult(Zeros(20), [], 0, Zeros(32), 0, Zeros(32), [])
  }

  /** What the fetch returns for one descriptor. */
  datatype FetchStateResult = FetchStateResult(acc: Option<AccountResult>, code: Option<Bytes>)

  /** FetchStateResult::default(). */
  const EmptyResult := FetchStateResult(None, None)

  datatype RpcError =
    | SerdeResponseError(context: string, payload: Raw, cause: string)
    | TransportError(message: string)

  /** The JSON decoder, one partial decoding per expected result type:
      SU256 balances, SU64 nonces, HexBytes code, SH256 storage words and
      the AccountResult of eth_getProof. An Err carries the decoder's message. */
  datatype Decoders = Decoders(
    balance: Raw -> Result<nat, string>,
    nonce: Raw -> Result<nat, string>,
    code: Raw -> Result<Bytes, string>,
    storage: Raw -> Result<H256, string>,
    account: Raw -> Result<AccountResult, string>)

  /** `raw` decodes as the type that the answer to `call` is read as. */
  predicate Decodes(dec: Decoders, call: Call, raw: Raw) {
    match call
    case GetBalance(_, _) => dec.balance(raw).Ok?
    case GetTransactionCount(_, _) => dec.nonce(raw).Ok?
    case GetCode(_, _) => dec.code(raw).Ok?
    case GetStorageAt(_, _, _) => dec.storage(raw).Ok?
    case GetProof(_, _, _) => dec.account(raw).Ok?
  }

  /** The decoder's message when `raw` does not decode as the answer to `call`. */
  function DecodeMessage(dec: Decoders, call: Call, raw: Raw): string
    requires !Decodes(dec, call, raw)
  {
    match call
    case GetBalance(_, _) => dec.balance(raw).error
    case GetTransactionCount(_, _) => dec.nonce(raw).error
    case GetCode(_, _) => dec.code(raw).error
    case GetStorageAt(_, _, _) => dec.storage(raw).error
    case GetProof(_, _, _) => dec.account(raw).error
  }

  /** `resp` answers every call of `calls`, position by position, in decodable form. */
  predicate Serves(dec: Decoders, calls: seq<Call>, resp: seq<Raw>) {
    |resp| >= |calls| && forall k :: 0 <= k < |calls| ==> Decodes(dec, calls[k], resp[k])
  }

  /** The batch transport: an ordered list of calls in, an ordered list of raw
      answers (or a transport error) out. */
  type Transport = seq<Call> -> Result<seq<Raw>, RpcError>

  /** The transport's contract: a successful batch has one answer per call. */
  ghost predicate LengthPreserving(transport: Transport) {
    forall calls :: transport(calls).Ok? ==> |transport(calls).value| == |calls|
  }

  lemma ConcatAssoc<T>(a: seq<T>, b: seq<T>, c: seq<T>)
    ensures (a + b) + c == a + (b + c)
  {
  }

  /** An answer list serves a concatenated batch exactly when it serves the first
      part and its remainder serves the second. */
  lemma ServesAppend(dec: Decoders, first: seq<Call>, second: seq<Call>, resp: seq<Raw>)
    requires |first| <= |resp|
    ensures Serves(dec, first + second, resp) <==> Serves(dec, first, resp) && Serves(dec, second, resp[|first|..])
  {
    var n := |first|;
    if Serves(dec, first + second, resp) {
      forall k | 0 <= k < n ensures Decodes(dec, first[k], resp[k]) {
        assert (first + second)[k] == first[k];
      }
      forall k | 0 <= k < |second| ensures Decodes(dec, second[k], resp[n..][k]) {
        assert (first + second)[n + k] == second[k];
      }
    }
    if Serves(dec, first, resp) && Serves(dec, second, resp[n..]) {
      forall k | 0 <= k < n + |second| ensures Decodes(dec, (first + second)[k], resp[k]) {
        if k >= n {
          assert resp[n..][k - n] == resp[k];
        }
      }
    }
  }

  /** Serving a batch implies serving every prefix of it. */
  lemma ServesPrefix(dec: Decoders, first: seq<Call>, second: seq<Call>, resp: seq<Raw>)
    requires Serves(dec, first + second, resp)
    ensures Serves(dec, first, resp)
  {
    forall k | 0 <= k < |first| ensures Decodes(dec, first[k], resp[k]) {
      assert (first + second)[k] == first[k];
    }
  }

  /** Answer k is the first one in the batch that does not decode as its call's result. */
  predicate FirstUndecodable(dec: Decoders, calls: seq<Call>, resp: seq<Raw>, k: nat) {
    && k < |calls| && k < |resp|
    && !Decodes(dec, calls[k], resp[k])
    && forall j :: 0 <= j < k ==> Decodes(dec, calls[j], resp[j])
  }

  /** The first undecodable answer of a batch stays the first one when more calls
      are appended to the batch. */
  lemma FirstUndecodablePrefix(dec: Decoders, first: seq<Call>, second: seq<Call>, resp: seq<Raw>, k: nat)
    requires FirstUndecodable(dec, first, resp, k)
    ensures FirstUndecodable(dec, first + second, resp, k)
  {
    assert (first + second)[k] == first[k];
    forall j | 0 <= j < k ensures Decodes(dec, (first + second)[j], resp[j]) {
      assert (first + second)[j] == first[j];
    }
  }

  /** When the answers serve the first part of a batch, the first undecodable answer
      of the second part, counted from the end of the first, is the first undecodable
      answer of the whole batch. */
  lemma FirstUndecodableAfter(dec: Decoders, first: seq<Call>, second: seq<Call>, resp: seq<Raw>, m: nat)
    requires Serves(dec, first, resp)
    requires m < |second| && |first| + m < |resp| && !Decodes(dec, second[m], resp[|first| + m])
    requires forall j :: 0 <= j < m ==> Decodes(dec, second[j], resp[|first| + j])
    ensures FirstUndecodable(dec, first + second, resp, |first| + m)
  {
    var n := |first|;
    assert (first + second)[n + m] == second[m];
    forall j | 0 <= j < n + m ensures Decodes(dec, (first + second)[j], resp[j]) {
      if j >= n {
        assert (first + second)[j] == second[j - n];
        assert n + (j - n) == j;
      }
    }
  }
}
