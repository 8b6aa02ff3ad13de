/** `ExecutionClient::fetch_states`: each strategy's plan pass, one batch through the
    transport, then that strategy's demultiplexing pass. */
module ExecutionClient {
  import opened Types
  import DirectFetch
  import ProofFetch

  /** The direct path does not panic: whenever the batch succeeds, its answers serve
      the direct plan, which is exactly when every cursor position the demux reads
      is in range and every unwrap succeeds. */
  predicate DirectAnswered(transport: Transport, dec: Decoders, list: seq<FetchState>, block: BlockSelector): (b: bool)
    ensures var reply := transport(DirectFetch.DirectPlan(list, block));
      b <==> (reply.Ok? ==> DirectFetch.DirectReady(dec, list, reply.value))
  {
    var reply := transport(DirectFetch.DirectPlan(list, block));
    reply.Ok? ==>
      (DirectFetch.DirectReadyIff(dec, list, block, reply.value);
       Serves(dec, DirectFetch.DirectPlan(list, block), reply.value))
  }

  /** The proof path does not panic: whenever the batch succeeds, the iterator does
      not run dry before the demux is done, so the length assertion holds. That is
      the case exactly when the batch has at least one answer per planned call or
      one of its answers fails to decode (the error is then returned first). */
  predicate ProofAnswered(transport: Transport, dec: Decoders, list: seq<FetchState>, block: BlockSelector): (b: bool)
    ensures var plan := ProofFetch.ProofPlan(list, block); var reply := transport(plan);
      b <==>
        (reply.Ok? ==>
         || |reply.value| >= ProofFetch.ProofPlannedCount(list)
         || exists k :: 0 <= k < |reply.value| && !Decodes(dec, plan[k], reply.value[k]))
  {
    var reply := transport(ProofFetch.ProofPlan(list, block));
    reply.Ok? ==>
      (ProofFetch.ProofDemuxStopsIff(dec, list, block, reply.value);
       !ProofFetch.ProofDemux(dec, list, reply.value).Stopped?)
  }

  /** `fetch_states` without proofs: a transport error is returned as is; otherwise
      one result per descriptor that has an address, read from the answers. */
  method FetchStatesDirect(list: seq<FetchState>, block: BlockSelector, transport: Transport, dec: Decoders)
    returns (r: Result<seq<FetchStateResult>, RpcError>)
    requires DirectAnswered(transport, dec, list, block)
    ensures var reply := transport(DirectFetch.DirectPlan(list, block));
      reply.Err? ==> r == Err(reply.error)
    ensures var reply := transport(DirectFetch.DirectPlan(list, block));
      reply.Ok? ==>
        && r.Ok?
        && DirectFetch.DirectReady(dec, list, reply.value)
        && r.value == DirectFetch.DirectDemux(dec, list, reply.value)
        && |r.value| == DirectFetch.AddressedCount(list)
  {
    var request := DirectFetch.PlanDirect(list, block);
    var reply := transport(request);
    if reply.Err? {
      return Err(reply.error);
    }
    DirectFetch.ServesReady(dec, list, block, reply.value);
    var out, idx := DirectFetch.DemuxDirect(dec, list, reply.value);
    r := Ok(out);
  }

  /** `fetch_states_with_proof`: a transport error or the first decoding error is
      returned; otherwise one result per descriptor, read from the answers. */
  method FetchStatesWithProof(list: seq<FetchState>, block: BlockSelector, transport: Transport, dec: Decoders)
    returns (r: Result<seq<FetchStateResult>, RpcError>)
    requires ProofAnswered(transport, dec, list, block)
    ensures var reply := transport(ProofFetch.ProofPlan(list, block));
      reply.Err? ==> r == Err(reply.error)
    ensures var reply := transport(ProofFetch.ProofPlan(list, block));
      reply.Ok? ==>
        var st := ProofFetch.ProofDemux(dec, list, reply.value);
        && (st.Running? ==> r == Ok(st.out) && |st.out| == |list|)
        && (st.Failed? ==> r == Err(st.error))
    ensures r.Ok? ==> |r.value| == |list|
  {
    var request := ProofFetch.PlanWithProof(list, block);
    var reply := transport(request);
    if reply.Err? {
      return Err(reply.error);
    }
    var st := ProofFetch.DemuxWithProof(dec, list, reply.value);
    match st {
      case Running(out, _) => r := Ok(out);
      case Failed(e) => r := Err(e);
    }
  }

  /** `fetch_states`: dispatch on `with_proof`. */
  method FetchStates(list: seq<FetchState>, block: BlockSelector, withProof: bool, transport: Transport, dec: Decoders)
    returns (r: Result<seq<FetchStateResult>, RpcError>)
    requires withProof ==> ProofAnswered(transport, dec, list, block)
    requires !withProof ==> DirectAnswered(transport, dec, list, block)
    ensures var reply := transport(ProofFetch.ProofPlan(list, block));
      withProof && reply.Err? ==> r == Err(reply.error)
    ensures var reply := transport(ProofFetch.ProofPlan(list, block));
      withProof && reply.Ok? ==>
        var st := ProofFetch.ProofDemux(dec, list, reply.value);
        && (st.Running? ==> r == Ok(st.out) && |st.out| == |list|)
        && (st.Failed? ==> r == Err(st.error))
    ensures withProof && r.Ok? ==> |r.value| == |list|
    ensures var reply := transport(DirectFetch.DirectPlan(list, block));
      !withProof && reply.Err? ==> r == Err(reply.error)
    ensures var reply := transport(DirectFetch.DirectPlan(list, block));
      !withProof && reply.Ok? ==>
        && r.Ok?
        && DirectFetch.DirectReady(dec, list, reply.value)
        && r.value == DirectFetch.DirectDemux(dec, list, reply.value)
        && |r.value| == DirectFetch.AddressedCount(list)
  {
    if withProof {
      r := FetchStatesWithProof(list, block, transport, dec);
      return;
    }
    r := FetchStatesDirect(list, block, transport, dec);
  }

  /** A transport that keeps its contract (one answer per call) never makes the
      proof path panic: the only failure left is a decoding error. */
  lemma LengthPreservingProofAnswered(transport: Transport, dec: Decoders, list: seq<FetchState>, block: BlockSelector)
    requires LengthPreserving(transport)
    ensures ProofAnswered(transport, dec, list, block)
  {
    var plan := ProofFetch.ProofPlan(list, block);
    if transport(plan).Ok? {
      ProofFetch.ProofDemuxFull(dec, list, block, transport(plan).value);
    }
  }

  /** The answers a node gives, one per call, when every call is answered by looking
      it up: the same call always gets the same answer. */
  function Answers(node: Call -> Raw, calls: seq<Call>): (resp: seq<Raw>)
    ensures |resp| == |calls|
    ensures forall k :: 0 <= k < |calls| ==> resp[k] == node(calls[k])
  {
    seq(|calls|, k requires 0 <= k < |calls| => node(calls[k]))
  }

  /** An addressed descriptor that asks for code has its eth_getCode call in both
      batches, so a consistent node gives both strategies the same answer for it. */
  lemma SameCodeAnswer(node: Call -> Raw, list: seq<FetchState>, block: BlockSelector, i: nat)
    requires i < |list| && list[i].addr.Some? && list[i].code.Some?
    ensures DirectFetch.PlannedCount(list[..i]) + 2 < DirectFetch.PlannedCount(list)
    ensures ProofFetch.ProofPlannedCount(list[..i]) + ProofFetch.AccountSlots(list[i]) < ProofFetch.ProofPlannedCount(list)
    ensures Answers(node, DirectFetch.DirectPlan(list, block))[DirectFetch.PlannedCount(list[..i]) + 2]
            == Answers(node, ProofFetch.ProofPlan(list, block))[ProofFetch.ProofPlannedCount(list[..i]) + ProofFetch.AccountSlots(list[i])]
  {
    var item := list[i];
    var dplan := DirectFetch.DirectPlan(list, block);
    var pplan := ProofFetch.ProofPlan(list, block);
    var dat := DirectFetch.PlannedCount(list[..i]);
    var pat := ProofFetch.ProofPlannedCount(list[..i]);
    var a := ProofFetch.AccountSlots(item);
    DirectFetch.DirectPlanAlignment(list, block, i);
    ProofFetch.ProofPlanAlignment(list, block, i);
    DirectFetch.DirectCallsShape(item, block);
    ProofFetch.ProofCallsShape(item, block, item.addr);
    assert dplan[dat + 2] == GetCode(item.code.value, block) by {
      assert dplan[dat + 2] == dplan[dat..dat + DirectFetch.DirectCount(item)][2];
    }
    assert pplan[pat + a] == GetCode(item.code.value, block) by {
      assert pplan[pat + a] == pplan[pat..pat + ProofFetch.ProofCount(item)][a];
    }
  }

  /** Both strategies read a descriptor's code from the same eth_getCode call, so
      against a node that answers every call consistently they return the same code
      for every descriptor that has an address. */
  lemma StrategiesAgreeOnCode(dec: Decoders, node: Call -> Raw, list: seq<FetchState>, block: BlockSelector, i: nat)
    requires i < |list| && list[i].addr.Some?
    requires Serves(dec, DirectFetch.DirectPlan(list, block), Answers(node, DirectFetch.DirectPlan(list, block)))
    requires Serves(dec, ProofFetch.ProofPlan(list, block), Answers(node, ProofFetch.ProofPlan(list, block)))
    ensures DirectFetch.DirectReady(dec, list, Answers(node, DirectFetch.DirectPlan(list, block)))
    ensures DirectFetch.AddressedCount(list[..i]) < |DirectFetch.DirectDemux(dec, list, Answers(node, DirectFetch.DirectPlan(list, block)))|
    ensures ProofFetch.ProofDemux(dec, list, Answers(node, ProofFetch.ProofPlan(list, block))).Running?
    ensures |ProofFetch.ProofDemux(dec, list, Answers(node, ProofFetch.ProofPlan(list, block))).out| == |list|
    ensures DirectFetch.DirectDemux(dec, list, Answers(node, DirectFetch.DirectPlan(list, block)))[DirectFetch.AddressedCount(list[..i])].code
            == ProofFetch.ProofDemux(dec, list, Answers(node, ProofFetch.ProofPlan(list, block))).out[i].code
  {
    var dresp := Answers(node, DirectFetch.DirectPlan(list, block));
    var presp := Answers(node, ProofFetch.ProofPlan(list, block));
    DirectFetch.DirectRoundTrip(dec, list, block, dresp, i);
    ProofFetch.ProofRoundTrip(dec, list, block, presp, i);
    DirectFetch.DirectResultFields(dec, list[i], dresp, DirectFetch.PlannedCount(list[..i]));
    if list[i].code.Some? {
      SameCodeAnswer(node, list, block, i);
    }
  }
}
