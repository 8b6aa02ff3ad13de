/** Block-selector routing of the single-block queries: `get_block_generic` picks
    the by-hash or by-number block method, `trace_prestate` the by-hash or
    by-number prestate trace, and only the former accepts `Latest`. */
module BlockRouting {
  import opened Types

  /** The block parameter as it is put on the wire. */
  datatype BlockParam = HashParam(hash: H256) | NumberParam(number: nat) | TagParam(tag: string)

  /** One routed JSON-RPC request: method name, block parameter, and the flag that
      asks for full transactions. */
  datatype BlockRequest = BlockRequest(name: string, block: BlockParam, withTx: bool)

  /** The tracer configuration `trace_prestate` sends. */
  datatype TraceConfig = TraceConfig(tracer: Option<string>, enableMemory: bool)

  const PrestateConfig := TraceConfig(Some("prestateTracer"), false)

  datatype TraceRequest = TraceRequest(name: string, block: BlockParam, config: TraceConfig)

  /** `trace_prestate` has no route for the latest block (`unimplemented!()`). */
  datatype RoutingError = Unimplemented

  /** Reads a block parameter back as the selector it stands for; the tag
      "latest" is the only tag that is ever sent. */
  function SelectorOf(param: BlockParam): BlockSelector {
    match param
    case HashParam(h) => Hash(h)
    case NumberParam(n) => Number(n)
    case TagParam(_) => Latest
  }

  /** The block parameter of `get_block_generic`: hash, number, or the tag "latest". */
  function BlockParamOf(selector: BlockSelector): (param: BlockParam)
    ensures SelectorOf(param) == selector
    ensures param.TagParam? ==> param.tag == "latest"
  {
    match selector
    case Hash(h) => HashParam(h)
    case Number(n) => NumberParam(n)
    case Latest => TagParam("latest")
  }

  /** `get_block_generic`: a hash goes to eth_getBlockByHash, a number and `Latest`
      to eth_getBlockByNumber; the block parameter reads back as the selector, the
      only tag sent is "latest", and `with_tx` is passed through. */
  function GetBlockRequest(selector: BlockSelector, withTx: bool): (req: BlockRequest)
    ensures req.name == "eth_getBlockByHash" <==> selector.Hash?
    ensures req.name == "eth_getBlockByNumber" <==> !selector.Hash?
    ensures SelectorOf(req.block) == selector
    ensures req.block.TagParam? ==> req.block.tag == "latest"
    ensures req.withTx == withTx
  {
    BlockRequest(if selector.Hash? then "eth_getBlockByHash" else "eth_getBlockByNumber",
                 BlockParamOf(selector), withTx)
  }

  /** `trace_prestate`: a hash goes to debug_traceBlockByHash, a number to
      debug_traceBlockByNumber, both with the prestate tracer and memory capture
      off; `Latest` has no route. */
  function TracePrestateRequest(selector: BlockSelector): (r: Result<TraceRequest, RoutingError>)
    ensures r.Ok? <==> !selector.Latest?
    ensures r.Ok? ==> (r.value.name == "debug_traceBlockByHash" <==> selector.Hash?)
    ensures r.Ok? ==> (r.value.name == "debug_traceBlockByNumber" <==> selector.Number?)
    ensures r.Ok? ==> SelectorOf(r.value.block) == selector
    ensures r.Ok? ==> r.value.config.tracer == Some("prestateTracer") && !r.value.config.enableMemory
  {
    match selector
    case Hash(h) => Ok(TraceRequest("debug_traceBlockByHash", BlockParamOf(selector), PrestateConfig))
    case Number(n) => Ok(TraceRequest("debug_traceBlockByNumber", BlockParamOf(selector), PrestateConfig))
    case Latest => Err(Unimplemented)
  }

  /** Different queries never share a request: the routed request determines the
      selector and the transaction flag it was made from. */
  lemma GetBlockRequestInjective(s1: BlockSelector, w1: bool, s2: BlockSelector, w2: bool)
    requires GetBlockRequest(s1, w1) == GetBlockRequest(s2, w2)
    ensures s1 == s2 && w1 == w2
  {
    assert SelectorOf(GetBlockRequest(s1, w1).block) == s1;
    assert SelectorOf(GetBlockRequest(s2, w2).block) == s2;
  }

  /** Wherever `trace_prestate` has a route, it addresses the block with the same
      parameter as `get_block_generic`, and by hash exactly when the block query
      does. */
  lemma TraceMatchesGetBlock(selector: BlockSelector, withTx: bool)
    requires !selector.Latest?
    ensures TracePrestateRequest(selector).Ok?
    ensures TracePrestateRequest(selector).value.block == GetBlockRequest(selector, withTx).block
    ensures (TracePrestateRequest(selector).value.name == "debug_traceBlockByHash")
            == (GetBlockRequest(selector, withTx).name == "eth_getBlockByHash")
  {
  }
}
