/** The proof strategy of `fetch_states` (`fetch_states_with_proof`): a plan pass
    that asks, per descriptor, for one eth_getProof covering all its storage keys
    and for its code, and a demultiplexing pass that draws answers from one
    iterator, giving every descriptor a result, failing on the first answer that
    does not decode and stopping early when the iterator runs dry. */
module ProofFetch {
  import opened Types

  // ---------------------------------------------------------------- plan pass

  /** Number of eth_getProof calls a descriptor asks for. */
  function AccountSlots(item: FetchState): nat {
    if item.accessList.Some? then 1 else 0
  }

  /** How many calls the proof plan spends on one descriptor. */
  function ProofCount(item: FetchState): nat {
    AccountSlots(item) + CodeSlots(item)
  }

  /** The calls the proof plan emits for one descriptor, in emission order. */
  function ProofCalls(item: FetchState, block: BlockSelector): (calls: seq<Call>)
    ensures |calls| == ProofCount(item)
  {
    (if item.accessList.Some?
     then [GetProof(item.accessList.value.address, item.accessList.value.storageKeys, block)]
     else [])
    + (if item.code.Some? then [GetCode(item.code.value, block)] else [])
  }

  /** Total number of calls the proof plan emits for a descriptor list. */
  function ProofPlannedCount(list: seq<FetchState>): nat {
    if list == [] then 0 else ProofPlannedCount(list[..|list| - 1]) + ProofCount(list[|list| - 1])
  }

  /** The whole proof batch: each descriptor's calls, concatenated in list order. */
  function ProofPlan(list: seq<FetchState>, block: BlockSelector): (plan: seq<Call>)
    ensures |plan| == ProofPlannedCount(list)
  {
    if list == [] then []
    else ProofPlan(list[..|list| - 1], block) + ProofCalls(list[|list| - 1], block)
  }

  /** The plan pass of `fetch_states_with_proof`. */
  method PlanWithProof(list: seq<FetchState>, block: BlockSelector) returns (request: seq<Call>)
    ensures request == ProofPlan(list, block)
  {
    request := [];
    for i := 0 to |list|
      invariant request == ProofPlan(list[..i], block)
    {
      assert ProofPlan(list[..i + 1], block) == ProofPlan(list[..i], block) + ProofCalls(list[i], block) by {
        assert list[..i + 1][..i] == list[..i];
      }
      request := PushProofCalls(request, list[i], block);
    }
    assert list[..|list|] == list;
  }

  /** One iteration of the proof plan pass. */
  method PushProofCalls(request0: seq<Call>, item: FetchState, block: BlockSelector) returns (request: seq<Call>)
    ensures request == request0 + ProofCalls(item, block)
  {
    request := request0;
    if item.accessList.Some? {
      var al := item.accessList.value;
      request := request + [GetProof(al.address, al.storageKeys, block)];
    }
    ghost var mid := request;
    if item.code.Some? {
      request := request + [GetCode(item.code.value, block)];
    }
    ConcatAssoc(request0, mid[|request0|..], request[|mid|..]);
  }

  // ---------------------------------------------------------- plan properties

  /** The proof plan for a descriptor is one eth_getProof carrying all its storage
      keys when it has an access list, then one eth_getCode when code is wanted;
      it never looks at the descriptor's resolved address. */
  lemma ProofCallsShape(item: FetchState, block: BlockSelector, other: Option<Address>)
    ensures |ProofCalls(item, block)| == AccountSlots(item) + CodeSlots(item)
    ensures item.accessList.Some? ==>
      ProofCalls(item, block)[0] == GetProof(item.accessList.value.address, item.accessList.value.storageKeys, block)
    ensures item.code.Some? ==> ProofCalls(item, block)[AccountSlots(item)] == GetCode(item.code.value, block)
    ensures ProofCalls(item.(addr := other), block) == ProofCalls(item, block)
  {
  }

  /** Every call a descriptor plans on the proof path goes out as eth_getProof or
      eth_getCode. */
  lemma ProofCallsMethods(item: FetchState, block: BlockSelector, j: nat)
    requires j < ProofCount(item)
    ensures MethodName(ProofCalls(item, block)[j]) in {"eth_getProof", "eth_getCode"}
  {
    ProofCallsShape(item, block, item.addr);
  }

  /** The proof batch is sent under eth_getProof and eth_getCode only. */
  lemma {:induction false} ProofPlanMethods(list: seq<FetchState>, block: BlockSelector)
    ensures forall k :: 0 <= k < |ProofPlan(list, block)| ==>
      MethodName(ProofPlan(list, block)[k]) in {"eth_getProof", "eth_getCode"}
  {
    if list != [] {
      var init, last := list[..|list| - 1], list[|list| - 1];
      var head, calls := ProofPlan(init, block), ProofCalls(last, block);
      ProofPlanMethods(init, block);
      forall k | 0 <= k < |head + calls|
        ensures MethodName((head + calls)[k]) in {"eth_getProof", "eth_getCode"}
      {
        if k < |head| {
          assert (head + calls)[k] == head[k];
        } else {
          assert (head + calls)[k] == calls[k - |head|];
          ProofCallsMethods(last, block, k - |head|);
        }
      }
    }
  }

  lemma {:induction false} ProofPlanAppend(a: seq<FetchState>, b: seq<FetchState>, block: BlockSelector)
    ensures ProofPlan(a + b, block) == ProofPlan(a, block) + ProofPlan(b, block)
  {
    if b == [] {
      assert a + b == a;
    } else {
      var b' := b[..|b| - 1];
      assert ProofPlan(a + b, block) == ProofPlan(a + b', block) + ProofCalls(b[|b| - 1], block) by {
        assert (a + b)[..|a + b| - 1] == a + b';
        assert (a + b)[|a + b| - 1] == b[|b| - 1];
      }
      ProofPlanAppend(a, b', block);
      ConcatAssoc(ProofPlan(a, block), ProofPlan(b', block), ProofCalls(b[|b| - 1], block));
    }
  }

  /** Positional alignment of the proof plan: descriptor i's calls sit in the batch
      at offset ProofPlannedCount(list[..i]), contiguously and in emission order. */
  lemma ProofPlanAlignment(list: seq<FetchState>, block: BlockSelector, i: nat)
    requires i < |list|
    ensures ProofPlannedCount(list[..i]) + ProofCount(list[i]) <= ProofPlannedCount(list)
    ensures ProofPlan(list, block)[ProofPlannedCount(list[..i])..ProofPlannedCount(list[..i]) + ProofCount(list[i])]
            == ProofCalls(list[i], block)
  {
    assert list == list[..i] + [list[i]] + list[i + 1..];
    ProofPlanAppend(list[..i] + [list[i]], list[i + 1..], block);
    ProofPlanAppend(list[..i], [list[i]], block);
    assert ProofPlan([list[i]], block) == ProofCalls(list[i], block) by {
      assert [list[i]][..0] == [];
    }
  }

  // ---------------------------------------------------------- demux pass

  /** The context string every decoding error of this path is tagged with. */
  const Context := "fetch_states_with_proof"

  /** What reading one descriptor's answers from cursor position `at` gives: its
      result and the next position, a decoding error, or an exhausted iterator. */
  datatype ItemStep = Took(result: FetchStateResult, next: nat) | Bad(error: RpcError) | Exhausted

  /** Where the demux stands: still running with the results so far and the cursor,
      failed with an error, or stopped early by an exhausted iterator with the
      results completed before it. */
  datatype DemuxState = Running(out: seq<FetchStateResult>, next: nat) | Failed(error: RpcError) | Stopped(out: seq<FetchStateResult>)

  /** One iteration of the proof demux, reading from cursor position `at`: the
      eth_getProof answer if there is an access list, then the eth_getCode answer if
      code was asked for. A completed read gives an account exactly when there was
      an access list and code exactly when it was asked for, and moves the cursor
      past the descriptor's calls; a failed one carries the context tag; the
      iterator runs dry only inside the descriptor's calls. */
  function ProofItem(dec: Decoders, item: FetchState, resp: seq<Raw>, at: nat): (step: ItemStep)
    ensures step.Took? ==>
      && step.next == at + ProofCount(item)
      && (ProofCount(item) > 0 ==> step.next <= |resp|)
      && (step.result.acc.Some? <==> item.accessList.Some?)
      && (step.result.code.Some? <==> item.code.Some?)
    ensures step.Bad? ==> step.error.SerdeResponseError? && step.error.context == Context
    ensures step.Exhausted? ==> |resp| < at + ProofCount(item)
  {
    if item.accessList.Some? && at >= |resp| then Exhausted
    else if item.accessList.Some? && dec.account(resp[at]).Err? then
      Bad(SerdeResponseError(Context, resp[at], dec.account(resp[at]).error))
    else
      var a := AccountSlots(item);
      var state := if item.accessList.Some? then EmptyResult.(acc := Some(dec.account(resp[at]).value)) else EmptyResult;
      if item.code.Some? && at + a >= |resp| then Exhausted
      else if item.code.Some? && dec.code(resp[at + a]).Err? then
        Bad(SerdeResponseError(Context, resp[at + a], dec.code(resp[at + a]).error))
      else if item.code.Some? then Took(state.(code := Some(dec.code(resp[at + a]).value)), at + a + 1)
      else Took(state, at + a)
  }

  /** The proof demux over a descriptor list. A completed run has one result per
      descriptor and its cursor exactly at the planned count, never past the
      answers; a failed run carries the context tag; an early stop leaves strictly
      fewer results than descriptors. */
  function ProofDemux(dec: Decoders, list: seq<FetchState>, resp: seq<Raw>): (st: DemuxState)
    ensures st.Running? ==> |st.out| == |list| && st.next == ProofPlannedCount(list) <= |resp|
    ensures st.Failed? ==> st.error.SerdeResponseError? && st.error.context == Context
    ensures st.Stopped? ==> |st.out| < |list|
  {
    if list == [] then Running([], 0)
    else
      var s := ProofDemux(dec, list[..|list| - 1], resp);
      if !s.Running? then s
      else match ProofItem(dec, list[|list| - 1], resp, s.next)
        case Took(r, next) => Running(s.out + [r], next)
        case Bad(e) => Failed(e)
        case Exhausted => Stopped(s.out)
  }

  /** The demux pass of `fetch_states_with_proof`: the cursor `idx` stands for the
      position of the answer iterator. */
  method DemuxWithProof(dec: Decoders, list: seq<FetchState>, resp: seq<Raw>) returns (st: DemuxState)
    ensures st == ProofDemux(dec, list, resp)
  {
    var out := [];
    var idx := 0;
    for i := 0 to |list|
      invariant ProofDemux(dec, list[..i], resp) == Running(out, idx)
    {
      assert ProofDemux(dec, list[..i + 1], resp)
             == match ProofItem(dec, list[i], resp, idx)
                case Took(r, next) => Running(out + [r], next)
                case Bad(e) => Failed(e)
                case Exhausted => Stopped(out) by {
        assert list[..i + 1][..i] == list[..i];
      }
      var step := TakeItem(dec, list[i], resp, idx);
      match step {
        case Took(r, next) =>
          out := out + [r];
          idx := next;
        case Bad(e) =>
          ProofDemuxAbsorbs(dec, list, resp, i + 1);
          return Failed(e);
        case Exhausted =>
          ProofDemuxAbsorbs(dec, list, resp, i + 1);
          return Stopped(out);
      }
    }
    assert list[..|list|] == list;
    st := Running(out, idx);
  }

  /** One iteration of the proof demux: take the eth_getProof answer if an access
      list was given, then the eth_getCode answer if code was asked for. */
  method TakeItem(dec: Decoders, item: FetchState, resp: seq<Raw>, idx0: nat) returns (step: ItemStep)
    ensures step == ProofItem(dec, item, resp, idx0)
  {
    var idx := idx0;
    var state := EmptyResult;
    if item.accessList.Some? {
      if idx >= |resp| {
        return Exhausted;
      }
      var raw := resp[idx];
      idx := idx + 1;
      match dec.account(raw) {
        case Err(err) => return Bad(SerdeResponseError(Context, raw, err));
        case Ok(acc) => state := state.(acc := Some(acc));
      }
    }
    if item.code.Some? {
      if idx >= |resp| {
        return Exhausted;
      }
      var raw := resp[idx];
      idx := idx + 1;
      match dec.code(raw) {
        case Err(err) => return Bad(SerdeResponseError(Context, raw, err));
        case Ok(code) => state := state.(code := Some(code));
      }
    }
    step := Took(state, idx);
  }

  // ---------------------------------------------------------- demux properties

  /** Once the demux has failed or stopped, later descriptors change nothing. */
  lemma {:induction false} ProofDemuxAbsorbs(dec: Decoders, list: seq<FetchState>, resp: seq<Raw>, i: nat)
    requires i <= |list| && !ProofDemux(dec, list[..i], resp).Running?
    ensures ProofDemux(dec, list, resp) == ProofDemux(dec, list[..i], resp)
    decreases |list|
  {
    if i == |list| {
      assert list[..i] == list;
    } else {
      var init := list[..|list| - 1];
      assert init[..i] == list[..i];
      ProofDemuxAbsorbs(dec, init, resp, i);
    }
  }

  /** Reading one descriptor from a position within the answers succeeds exactly
      when the answers from there on serve that descriptor's calls. */
  lemma ProofItemTook(dec: Decoders, item: FetchState, block: BlockSelector, resp: seq<Raw>, at: nat)
    requires at <= |resp|
    ensures ProofItem(dec, item, resp, at).Took? <==> Serves(dec, ProofCalls(item, block), resp[at..])
    ensures ProofItem(dec, item, resp, at).Took? ==> ProofItem(dec, item, resp, at).next == at + ProofCount(item)
  {
    var calls := ProofCalls(item, block);
    if item.accessList.Some? && at < |resp| {
      assert resp[at..][0] == resp[at];
      assert calls[0].GetProof?;
    }
    if item.code.Some? && at + AccountSlots(item) < |resp| {
      assert resp[at..][AccountSlots(item)] == resp[at + AccountSlots(item)];
      assert calls[AccountSlots(item)].GetCode?;
    }
  }

  /** The demux runs to completion exactly when the answers serve the whole proof
      plan; a full, decodable answer list then yields one result per descriptor, as
      the source asserts. */
  lemma {:induction false} ProofDemuxRunning(dec: Decoders, list: seq<FetchState>, block: BlockSelector, resp: seq<Raw>)
    ensures ProofDemux(dec, list, resp).Running? <==> Serves(dec, ProofPlan(list, block), resp)
  {
    if list != [] {
      var init, last := list[..|list| - 1], list[|list| - 1];
      ProofDemuxRunning(dec, init, block, resp);
      var s := ProofDemux(dec, init, resp);
      var head := ProofPlan(init, block);
      assert ProofPlan(list, block) == head + ProofCalls(last, block);
      if s.Running? {
        ProofItemTook(dec, last, block, resp, s.next);
        ServesAppend(dec, head, ProofCalls(last, block), resp);
      } else {
        if Serves(dec, ProofPlan(list, block), resp) {
          ServesPrefix(dec, head, ProofCalls(last, block), resp);
        }
      }
    }
  }

  /** A failed item read carries the context tag and the raw text of the first
      answer of that descriptor that did not decode. */
  lemma ProofItemBad(dec: Decoders, item: FetchState, block: BlockSelector, resp: seq<Raw>, at: nat)
    returns (m: nat)
    requires ProofItem(dec, item, resp, at).Bad?
    ensures m < ProofCount(item) && at + m < |resp|
    ensures ProofItem(dec, item, resp, at).error.SerdeResponseError?
    ensures ProofItem(dec, item, resp, at).error.context == Context
    ensures ProofItem(dec, item, resp, at).error.payload == resp[at + m]
    ensures !Decodes(dec, ProofCalls(item, block)[m], resp[at + m])
    ensures forall m' :: 0 <= m' < m ==> Decodes(dec, ProofCalls(item, block)[m'], resp[at + m'])
    ensures ProofItem(dec, item, resp, at).error.cause == DecodeMessage(dec, ProofCalls(item, block)[m], resp[at + m])
  {
    var calls := ProofCalls(item, block);
    if item.accessList.Some? && dec.account(resp[at]).Err? {
      assert calls[0].GetProof?;
      m := 0;
    } else {
      m := AccountSlots(item);
      assert calls[m].GetCode?;
      if m == 1 {
        assert calls[0].GetProof?;
        assert Decodes(dec, calls[0], resp[at + 0]);
      }
    }
  }

  /** Decoding errors: a failed demux reports, tagged "fetch_states_with_proof",
      the raw text of the first planned answer that does not decode together with
      the decoder's message for it, and every answer before it decoded. */
  lemma {:induction false} ProofDemuxError(dec: Decoders, list: seq<FetchState>, block: BlockSelector, resp: seq<Raw>)
    requires ProofDemux(dec, list, resp).Failed?
    ensures exists k: nat :: (k < ProofPlannedCount(list) && FirstUndecodable(dec, ProofPlan(list, block), resp, k)
      && ProofDemux(dec, list, resp).error.SerdeResponseError?
      && ProofDemux(dec, list, resp).error.context == Context
      && ProofDemux(dec, list, resp).error.payload == resp[k]
      && ProofDemux(dec, list, resp).error.cause == DecodeMessage(dec, ProofPlan(list, block)[k], resp[k]))
  {
    var init, last := list[..|list| - 1], list[|list| - 1];
    var s := ProofDemux(dec, init, resp);
    var head := ProofPlan(init, block);
    assert ProofPlan(list, block) == head + ProofCalls(last, block);
    if s.Failed? {
      ProofDemuxError(dec, init, block, resp);
      var k: nat :| k < ProofPlannedCount(init) && FirstUndecodable(dec, head, resp, k)
        && s.error.SerdeResponseError? && s.error.context == Context && s.error.payload == resp[k]
        && s.error.cause == DecodeMessage(dec, head[k], resp[k]);
      FirstUndecodablePrefix(dec, head, ProofCalls(last, block), resp, k);
      assert (head + ProofCalls(last, block))[k] == head[k];
    } else {
      ProofDemuxRunning(dec, init, block, resp);
      var k := BadItemExtends(dec, head, last, block, resp);
    }
  }

  /** The failing step of ProofDemuxError: when the answers serve a batch `head`
      and the read of the next descriptor from there fails, its error is the first
      undecodable answer of `head` extended by that descriptor's calls. */
  lemma BadItemExtends(dec: Decoders, head: seq<Call>, item: FetchState, block: BlockSelector, resp: seq<Raw>)
    returns (k: nat)
    requires Serves(dec, head, resp) && ProofItem(dec, item, resp, |head|).Bad?
    ensures FirstUndecodable(dec, head + ProofCalls(item, block), resp, k)
    ensures |head| <= k < |head| + ProofCount(item)
    ensures ProofItem(dec, item, resp, |head|).error.payload == resp[k]
    ensures ProofItem(dec, item, resp, |head|).error.cause == DecodeMessage(dec, (head + ProofCalls(item, block))[k], resp[k])
  {
    var n := |head|;
    var m := ProofItemBad(dec, item, block, resp, n);
    FirstUndecodableAfter(dec, head, ProofCalls(item, block), resp, m);
    k := n + m;
  }

  /** An exhausted item read means the answers end inside that descriptor's calls,
      and every answer of it that is there decoded. */
  lemma ProofItemExhausted(dec: Decoders, item: FetchState, block: BlockSelector, resp: seq<Raw>, at: nat)
    requires at <= |resp| && ProofItem(dec, item, resp, at).Exhausted?
    ensures |resp| < at + ProofCount(item)
    ensures forall m :: 0 <= m < |resp| - at ==> Decodes(dec, ProofCalls(item, block)[m], resp[at + m])
  {
    var calls := ProofCalls(item, block);
    if item.accessList.Some? && at < |resp| {
      assert calls[0].GetProof?;
    }
  }

  /** Short batch: the demux stops early only when the answer list is shorter than
      the proof plan and every answer that is there decoded. */
  lemma {:induction false} ProofDemuxStopped(dec: Decoders, list: seq<FetchState>, block: BlockSelector, resp: seq<Raw>)
    requires ProofDemux(dec, list, resp).Stopped?
    ensures |resp| < ProofPlannedCount(list)
    ensures forall k :: 0 <= k < |resp| ==> Decodes(dec, ProofPlan(list, block)[k], resp[k])
  {
    var init, last := list[..|list| - 1], list[|list| - 1];
    var s := ProofDemux(dec, init, resp);
    var head := ProofPlan(init, block);
    var plan := ProofPlan(list, block);
    assert plan == head + ProofCalls(last, block);
    if s.Stopped? {
      ProofDemuxStopped(dec, init, block, resp);
      forall k | 0 <= k < |resp| ensures Decodes(dec, plan[k], resp[k]) {
        assert plan[k] == head[k];
      }
    } else {
      ProofDemuxRunning(dec, init, block, resp);
      var at := s.next;
      ProofItemExhausted(dec, last, block, resp, at);
      var calls := ProofCalls(last, block);
      forall k | 0 <= k < |resp| ensures Decodes(dec, plan[k], resp[k]) {
        if k < at {
          assert plan[k] == head[k];
        } else {
          assert plan[k] == calls[k - at];
          assert at + (k - at) == k;
        }
      }
    }
  }

  /** With at least as many answers as planned calls the iterator never runs dry,
      so the demux does not stop early; it fails exactly when some planned answer
      does not decode. */
  lemma ProofDemuxFull(dec: Decoders, list: seq<FetchState>, block: BlockSelector, resp: seq<Raw>)
    requires |resp| >= ProofPlannedCount(list)
    ensures !ProofDemux(dec, list, resp).Stopped?
    ensures ProofDemux(dec, list, resp).Failed? <==>
      exists k :: 0 <= k < ProofPlannedCount(list) && !Decodes(dec, ProofPlan(list, block)[k], resp[k])
  {
    if ProofDemux(dec, list, resp).Stopped? {
      ProofDemuxStopped(dec, list, block, resp);
    }
    ProofDemuxRunning(dec, list, block, resp);
    if ProofDemux(dec, list, resp).Failed? {
      ProofDemuxError(dec, list, block, resp);
      var k: nat :| FirstUndecodable(dec, ProofPlan(list, block), resp, k);
    }
  }

  /** Short batch with nothing malformed: the demux stops early, with strictly fewer
      results than descriptors (the source then fails its length assertion). */
  lemma ProofDemuxShort(dec: Decoders, list: seq<FetchState>, block: BlockSelector, resp: seq<Raw>)
    requires |resp| < ProofPlannedCount(list)
    requires forall k :: 0 <= k < |resp| ==> Decodes(dec, ProofPlan(list, block)[k], resp[k])
    ensures ProofDemux(dec, list, resp).Stopped?
    ensures |ProofDemux(dec, list, resp).out| < |list|
  {
    ProofDemuxRunning(dec, list, block, resp);
    if ProofDemux(dec, list, resp).Failed? {
      ProofDemuxError(dec, list, block, resp);
      assert false;
    }
  }

  /** The demux stops early exactly when the answer list is shorter than the proof
      plan and every answer that is there decodes: this is when the source's length
      assertion fails. */
  lemma ProofDemuxStopsIff(dec: Decoders, list: seq<FetchState>, block: BlockSelector, resp: seq<Raw>)
    ensures ProofDemux(dec, list, resp).Stopped? <==>
      && |resp| < ProofPlannedCount(list)
      && forall k :: 0 <= k < |resp| ==> Decodes(dec, ProofPlan(list, block)[k], resp[k])
  {
    if ProofDemux(dec, list, resp).Stopped? {
      ProofDemuxStopped(dec, list, block, resp);
    }
    if |resp| < ProofPlannedCount(list) && forall k :: 0 <= k < |resp| ==> Decodes(dec, ProofPlan(list, block)[k], resp[k]) {
      ProofDemuxShort(dec, list, block, resp);
    }
  }

  /** Positional alignment of the proof demux: in a completed run, descriptor i's
      result has an account exactly when it had an access list, decoded from the
      answer at offset ProofPlannedCount(list[..i]), and code exactly when code was
      asked for, decoded from the answer right after that one. */
  lemma {:induction false} ProofDemuxAt(dec: Decoders, list: seq<FetchState>, resp: seq<Raw>, i: nat)
    requires ProofDemux(dec, list, resp).Running? && i < |list|
    ensures |ProofDemux(dec, list, resp).out| == |list|
    ensures ProofDemux(dec, list, resp).out[i].acc.Some? <==> list[i].accessList.Some?
    ensures list[i].accessList.Some? ==>
      && ProofPlannedCount(list[..i]) < |resp|
      && dec.account(resp[ProofPlannedCount(list[..i])]).Ok?
      && ProofDemux(dec, list, resp).out[i].acc.value == dec.account(resp[ProofPlannedCount(list[..i])]).value
    ensures ProofDemux(dec, list, resp).out[i].code.Some? <==> list[i].code.Some?
    ensures list[i].code.Some? ==>
      && ProofPlannedCount(list[..i]) + AccountSlots(list[i]) < |resp|
      && dec.code(resp[ProofPlannedCount(list[..i]) + AccountSlots(list[i])]).Ok?
      && ProofDemux(dec, list, resp).out[i].code.value
         == dec.code(resp[ProofPlannedCount(list[..i]) + AccountSlots(list[i])]).value
  {
    var init := list[..|list| - 1];
    if i == |list| - 1 {
      assert list[..i] == init;
    } else {
      assert init[..i] == list[..i];
      assert init[i] == list[i];
      ProofDemuxAt(dec, init, resp, i);
    }
  }

  /** Round trip of the proof strategy: when the answers serve the proof plan, the
      demux completes with one result per descriptor, and descriptor i's calls and
      the answers its result is read from share the offset ProofPlannedCount(list[..i]). */
  lemma ProofRoundTrip(dec: Decoders, list: seq<FetchState>, block: BlockSelector, resp: seq<Raw>, i: nat)
    requires Serves(dec, ProofPlan(list, block), resp)
    requires i < |list|
    ensures ProofDemux(dec, list, resp).Running?
    ensures |ProofDemux(dec, list, resp).out| == |list|
    ensures ProofDemux(dec, list, resp).next == ProofPlannedCount(list)
    ensures ProofPlannedCount(list[..i]) + ProofCount(list[i]) <= ProofPlannedCount(list) <= |resp|
    ensures ProofPlan(list, block)[ProofPlannedCount(list[..i])..ProofPlannedCount(list[..i]) + ProofCount(list[i])]
            == ProofCalls(list[i], block)
    ensures ProofDemux(dec, list, resp).out[i].acc.Some? <==> list[i].accessList.Some?
    ensures list[i].accessList.Some? ==>
      && dec.account(resp[ProofPlannedCount(list[..i])]).Ok?
      && ProofDemux(dec, list, resp).out[i].acc.value == dec.account(resp[ProofPlannedCount(list[..i])]).value
    ensures ProofDemux(dec, list, resp).out[i].code.Some? <==> list[i].code.Some?
    ensures list[i].code.Some? ==>
      && dec.code(resp[ProofPlannedCount(list[..i]) + AccountSlots(list[i])]).Ok?
      && ProofDemux(dec, list, resp).out[i].code.value
         == dec.code(resp[ProofPlannedCount(list[..i]) + AccountSlots(list[i])]).value
  {
    ProofDemuxRunning(dec, list, block, resp);
    ProofPlanAlignment(list, block, i);
    ProofDemuxAt(dec, list, resp, i);
  }
}
