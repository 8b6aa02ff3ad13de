/** The direct strategy of `fetch_states`: a plan pass that turns each addressed
    descriptor into its balance, nonce, code and storage calls, and a demultiplexing
    pass that walks the flat answer list with one forward cursor and rebuilds one
    result per addressed descriptor. */
module DirectFetch {
  import opened Types

  // ---------------------------------------------------------------- plan pass

  /** One eth_getStorageAt call per key, in key order. */
  function StorageCalls(address: Address, keys: seq<H256>, block: BlockSelector): (calls: seq<Call>)
    ensures |calls| == |keys|
  {
    if keys == [] then []
    else StorageCalls(address, keys[..|keys| - 1], block) + [GetStorageAt(address, keys[|keys| - 1], block)]
  }

  /** How many calls the direct plan spends on one descriptor. */
  function DirectCount(item: FetchState): nat {
    if item.addr.None? then 0 else 2 + CodeSlots(item) + KeyCount(item)
  }

  /** The calls the direct plan emits for one descriptor, in emission order. */
  function DirectCalls(item: FetchState, block: BlockSelector): (calls: seq<Call>)
    ensures |calls| == DirectCount(item)
  {
    match item.addr
    case None => []
    case Some(addr) =>
      [GetBalance(addr, block), GetTransactionCount(addr, block)]
      + (if item.code.Some? then [GetCode(item.code.value, block)] else [])
      + (if item.accessList.Some?
         then StorageCalls(item.accessList.value.address, item.accessList.value.storageKeys, block)
         else [])
  }

  /** Total number of calls the direct plan emits for a descriptor list. */
  function PlannedCount(list: seq<FetchState>): nat {
    if list == [] then 0 else PlannedCount(list[..|list| - 1]) + DirectCount(list[|list| - 1])
  }

  /** The whole direct batch: each descriptor's calls, concatenated in list order. */
  function DirectPlan(list: seq<FetchState>, block: BlockSelector): (plan: seq<Call>)
    ensures |plan| == PlannedCount(list)
  {
    if list == [] then []
    else DirectPlan(list[..|list| - 1], block) + DirectCalls(list[|list| - 1], block)
  }

  /** The plan pass of `fetch_states` (without proof): descriptors without an
      address are skipped, every other one appends its calls to `request`. */
  method PlanDirect(list: seq<FetchState>, block: BlockSelector) returns (request: seq<Call>)
    ensures request == DirectPlan(list, block)
  {
    request := [];
    for i := 0 to |list|
      invariant request == DirectPlan(list[..i], block)
    {
      assert DirectPlan(list[..i + 1], block) == DirectPlan(list[..i], block) + DirectCalls(list[i], block) by {
        assert list[..i + 1][..i] == list[..i];
      }
      var item := list[i];
      if item.addr.None? {
        continue;
      }
      request := PushItemCalls(request, item, block);
    }
    assert list[..|list|] == list;
  }

  /** One iteration of the plan pass for an addressed descriptor. */
  method PushItemCalls(request0: seq<Call>, item: FetchState, block: BlockSelector) returns (request: seq<Call>)
    requires item.addr.Some?
    ensures request == request0 + DirectCalls(item, block)
  {
    var addr := item.addr.value;
    request := request0;
    request := request + [GetBalance(addr, block)];
    request := request + [GetTransactionCount(addr, block)];
    if item.code.Some? {
      request := request + [GetCode(item.code.value, block)];
    }
    ghost var prefix := [GetBalance(addr, block), GetTransactionCount(addr, block)]
      + (if item.code.Some? then [GetCode(item.code.value, block)] else []);
    assert request == request0 + prefix;
    if item.accessList.Some? {
      var al := item.accessList.value;
      request := PushStorageCalls(request, al.address, al.storageKeys, block);
      ConcatAssoc(request0, prefix, StorageCalls(al.address, al.storageKeys, block));
    } else {
      assert DirectCalls(item, block) == prefix + [];
    }
  }

  /** The inner loop of the plan pass: one eth_getStorageAt per key. */
  method PushStorageCalls(request0: seq<Call>, address: Address, keys: seq<H256>, block: BlockSelector) returns (request: seq<Call>)
    ensures request == request0 + StorageCalls(address, keys, block)
  {
    request := request0;
    for j := 0 to |keys|
      invariant request == request0 + StorageCalls(address, keys[..j], block)
    {
      assert StorageCalls(address, keys[..j + 1], block)
             == StorageCalls(address, keys[..j], block) + [GetStorageAt(address, keys[j], block)] by {
        assert keys[..j + 1][..j] == keys[..j];
      }
      request := request + [GetStorageAt(address, keys[j], block)];
    }
    assert keys[..|keys|] == keys;
  }

  // ---------------------------------------------------------- plan properties

  lemma {:induction false} StorageCallsAt(address: Address, keys: seq<H256>, block: BlockSelector, k: nat)
    requires k < |keys|
    ensures StorageCalls(address, keys, block)[k] == GetStorageAt(address, keys[k], block)
  {
    var n := |keys|;
    if k < n - 1 {
      StorageCallsAt(address, keys[..n - 1], block, k);
    }
  }

  /** The direct plan for an addressed descriptor is eth_getBalance, then
      eth_getTransactionCount, then eth_getCode when code is wanted, then one
      eth_getStorageAt per storage key in key order: 2 + [code] + N calls. */
  lemma DirectCallsShape(item: FetchState, block: BlockSelector)
    requires item.addr.Some?
    ensures |DirectCalls(item, block)| == 2 + CodeSlots(item) + KeyCount(item)
    ensures DirectCalls(item, block)[0] == GetBalance(item.addr.value, block)
    ensures DirectCalls(item, block)[1] == GetTransactionCount(item.addr.value, block)
    ensures item.code.Some? ==> DirectCalls(item, block)[2] == GetCode(item.code.value, block)
    ensures item.accessList.Some? ==>
      forall k :: 0 <= k < |item.accessList.value.storageKeys| ==>
        DirectCalls(item, block)[2 + CodeSlots(item) + k]
        == GetStorageAt(item.accessList.value.address, item.accessList.value.storageKeys[k], block)
  {
    if item.accessList.Some? {
      var al := item.accessList.value;
      var head := [GetBalance(item.addr.value, block), GetTransactionCount(item.addr.value, block)]
        + (if item.code.Some? then [GetCode(item.code.value, block)] else []);
      assert DirectCalls(item, block) == head + StorageCalls(al.address, al.storageKeys, block);
      forall k | 0 <= k < |al.storageKeys|
        ensures DirectCalls(item, block)[2 + CodeSlots(item) + k] == GetStorageAt(al.address, al.storageKeys[k], block)
      {
        StorageCallsAt(al.address, al.storageKeys, block, k);
      }
    }
  }

  /** Every call a descriptor plans goes out as eth_getBalance,
      eth_getTransactionCount, eth_getCode or eth_getStorageAt. */
  lemma CallsMethods(item: FetchState, block: BlockSelector, j: nat)
    requires j < DirectCount(item)
    ensures MethodName(DirectCalls(item, block)[j])
            in {"eth_getBalance", "eth_getTransactionCount", "eth_getCode", "eth_getStorageAt"}
  {
    DirectCallsShape(item, block);
    if j >= 2 + CodeSlots(item) {
      var al, i := item.accessList.value, j - 2 - CodeSlots(item);
      assert DirectCalls(item, block)[2 + CodeSlots(item) + i] == GetStorageAt(al.address, al.storageKeys[i], block);
    }
  }

  /** The direct batch is sent under the four plain state methods only, never as
      eth_getProof. */
  lemma {:induction false} DirectPlanMethods(list: seq<FetchState>, block: BlockSelector)
    ensures forall k :: 0 <= k < |DirectPlan(list, block)| ==>
      MethodName(DirectPlan(list, block)[k])
      in {"eth_getBalance", "eth_getTransactionCount", "eth_getCode", "eth_getStorageAt"}
  {
    if list != [] {
      var init, last := list[..|list| - 1], list[|list| - 1];
      var head, calls := DirectPlan(init, block), DirectCalls(last, block);
      DirectPlanMethods(init, block);
      forall k | 0 <= k < |head + calls|
        ensures MethodName((head + calls)[k])
                in {"eth_getBalance", "eth_getTransactionCount", "eth_getCode", "eth_getStorageAt"}
      {
        if k < |head| {
          assert (head + calls)[k] == head[k];
        } else {
          assert (head + calls)[k] == calls[k - |head|];
          CallsMethods(last, block, k - |head|);
        }
      }
    }
  }

  /** A descriptor without an address plans no call at all. */
  lemma AddresslessPlansNothing(item: FetchState, block: BlockSelector)
    requires item.addr.None?
    ensures DirectCalls(item, block) == [] && DirectCount(item) == 0
  {
  }

  /** Planning distributes over concatenation of descriptor lists. */
  lemma {:induction false} DirectPlanAppend(a: seq<FetchState>, b: seq<FetchState>, block: BlockSelector)
    ensures DirectPlan(a + b, block) == DirectPlan(a, block) + DirectPlan(b, block)
  {
    if b == [] {
      assert a + b == a;
    } else {
      var b' := b[..|b| - 1];
      assert DirectPlan(a + b, block) == DirectPlan(a + b', block) + DirectCalls(b[|b| - 1], block) by {
        assert (a + b)[..|a + b| - 1] == a + b';
        assert (a + b)[|a + b| - 1] == b[|b| - 1];
      }
      DirectPlanAppend(a, b', block);
      ConcatAssoc(DirectPlan(a, block), DirectPlan(b', block), DirectCalls(b[|b| - 1], block));
    }
  }

  lemma PlannedCountAppend(a: seq<FetchState>, b: seq<FetchState>)
    ensures PlannedCount(a + b) == PlannedCount(a) + PlannedCount(b)
  {
    DirectPlanAppend(a, b, Latest);
    assert |DirectPlan(a + b, Latest)| == |DirectPlan(a, Latest)| + |DirectPlan(b, Latest)|;
  }

  /** Positional alignment of the plan: descriptor i's calls sit in the batch at
      offset PlannedCount(list[..i]), contiguously and in emission order. */
  lemma DirectPlanAlignment(list: seq<FetchState>, block: BlockSelector, i: nat)
    requires i < |list|
    ensures PlannedCount(list[..i]) + DirectCount(list[i]) <= PlannedCount(list)
    ensures DirectPlan(list, block)[PlannedCount(list[..i])..PlannedCount(list[..i]) + DirectCount(list[i])]
            == DirectCalls(list[i], block)
  {
    assert list == list[..i] + [list[i]] + list[i + 1..];
    DirectPlanAppend(list[..i] + [list[i]], list[i + 1..], block);
    DirectPlanAppend(list[..i], [list[i]], block);
    assert [list[i]][..0] == [];
  }

  /** Inserting an addressless descriptor anywhere leaves the batch unchanged. */
  lemma DirectPlanSkip(a: seq<FetchState>, x: FetchState, b: seq<FetchState>, block: BlockSelector)
    requires x.addr.None?
    ensures DirectPlan(a + [x] + b, block) == DirectPlan(a + b, block)
  {
    assert DirectPlan([x], block) == [] by {
      assert [x][..0] == [];
    }
    DirectPlanAppend(a + [x], b, block);
    DirectPlanAppend(a, [x], block);
    DirectPlanAppend(a, b, block);
  }

  // ---------------------------------------------------------- demux pass

  /** The answers at positions at.. decode as what the demux reads for `item`:
      balance, nonce, optional code, then one storage word per key. */
  predicate ItemReady(dec: Decoders, item: FetchState, resp: seq<Raw>, at: nat) {
    item.addr.Some? ==>
      && at + DirectCount(item) <= |resp|
      && dec.balance(resp[at]).Ok?
      && dec.nonce(resp[at + 1]).Ok?
      && (item.code.Some? ==> dec.code(resp[at + 2]).Ok?)
      && (forall j :: at + 2 + CodeSlots(item) <= j < at + DirectCount(item) ==> dec.storage(resp[j]).Ok?)
  }

  /** Every descriptor's answers are present and decodable at the position the
      cursor reaches it: the direct demux neither indexes out of range nor unwraps
      a failed decoding. */
  predicate DirectReady(dec: Decoders, list: seq<FetchState>, resp: seq<Raw>) {
    if list == [] then true
    else DirectReady(dec, list[..|list| - 1], resp)
         && ItemReady(dec, list[|list| - 1], resp, PlannedCount(list[..|list| - 1]))
  }

  /** Count of descriptors that resolve to an address. */
  function AddressedCount(list: seq<FetchState>): nat {
    if list == [] then 0
    else AddressedCount(list[..|list| - 1]) + (if list[|list| - 1].addr.Some? then 1 else 0)
  }

  /** Storage entries rebuilt from the storage words at positions base..: each
      carries its key and an empty proof. */
  function StorageEntries(dec: Decoders, keys: seq<H256>, resp: seq<Raw>, base: nat): (entries: seq<StorageResult>)
    requires base + |keys| <= |resp|
    requires forall j :: base <= j < base + |keys| ==> dec.storage(resp[j]).Ok?
    ensures |entries| == |keys|
  {
    if keys == [] then []
    else StorageEntries(dec, keys[..|keys| - 1], resp, base)
         + [StorageResult(keys[|keys| - 1], dec.storage(resp[base + |keys| - 1]).value, [])]
  }

  /** The result the demux assembles for an addressed descriptor whose answers
      start at position `at`. */
  function DirectResult(dec: Decoders, item: FetchState, resp: seq<Raw>, at: nat): (r: FetchStateResult)
    requires item.addr.Some? && ItemReady(dec, item, resp, at)
    ensures r.acc.Some? && r.acc.value.address == item.addr.value
    ensures r.code.Some? <==> item.code.Some?
    ensures |r.acc.value.storageProof| == KeyCount(item)
  {
    var acc := DefaultAccount().(
      address := item.addr.value,
      balance := dec.balance(resp[at]).value,
      nonce := dec.nonce(resp[at + 1]).value);
    var code := if item.code.Some? then Some(dec.code(resp[at + 2]).value) else None;
    var acc' := if item.accessList.Some?
                then acc.(storageProof := StorageEntries(dec, item.accessList.value.storageKeys, resp, at + 2 + CodeSlots(item)))
                else acc;
    FetchStateResult(Some(acc'), code)
  }

  /** The direct demux: one result per addressed descriptor, in list order. */
  function DirectDemux(dec: Decoders, list: seq<FetchState>, resp: seq<Raw>): (out: seq<FetchStateResult>)
    requires DirectReady(dec, list, resp)
    ensures |out| == AddressedCount(list)
  {
    if list == [] then []
    else
      var init, last := list[..|list| - 1], list[|list| - 1];
      DirectDemux(dec, init, resp)
      + (if last.addr.None? then [] else [DirectResult(dec, last, resp, PlannedCount(init))])
  }

  lemma ReadyPrefix(dec: Decoders, list: seq<FetchState>, resp: seq<Raw>, i: nat)
    requires DirectReady(dec, list, resp) && i <= |list|
    ensures DirectReady(dec, list[..i], resp)
    decreases |list|
  {
    if i < |list| {
      var init := list[..|list| - 1];
      assert init[..i] == list[..i];
      ReadyPrefix(dec, init, resp, i);
    } else {
      assert list[..i] == list;
    }
  }

  /** The demux pass of `fetch_states` (without proof): a cursor `idx` walks the
      answers; descriptors without an address are skipped and consume nothing. */
  method DemuxDirect(dec: Decoders, list: seq<FetchState>, resp: seq<Raw>) returns (out: seq<FetchStateResult>, idx: nat)
    requires DirectReady(dec, list, resp)
    ensures idx == PlannedCount(list)
    ensures out == DirectDemux(dec, list, resp)
  {
    idx := 0;
    out := [];
    for i := 0 to |list|
      invariant DirectReady(dec, list[..i], resp)
      invariant idx == PlannedCount(list[..i])
      invariant out == DirectDemux(dec, list[..i], resp)
    {
      ReadyPrefix(dec, list, resp, i + 1);
      assert list[..i + 1][..i] == list[..i];
      var item := list[i];
      if item.addr.None? {
        continue;
      }
      var result;
      result, idx := DecodeItem(dec, item, resp, idx);
      out := out + [result];
    }
    assert list[..|list|] == list;
  }

  /** One iteration of the demux pass for an addressed descriptor: balance, nonce,
      optional code, then the storage words, each read advancing the cursor by one. */
  method DecodeItem(dec: Decoders, item: FetchState, resp: seq<Raw>, idx0: nat) returns (result: FetchStateResult, idx: nat)
    requires item.addr.Some? && ItemReady(dec, item, resp, idx0)
    ensures idx == idx0 + DirectCount(item)
    ensures result == DirectResult(dec, item, resp, idx0)
  {
    idx := idx0;
    result := EmptyResult;
    var acc := DefaultAccount();
    acc := acc.(address := item.addr.value);
    acc := acc.(balance := dec.balance(resp[idx]).value);
    idx := idx + 1;
    acc := acc.(nonce := dec.nonce(resp[idx]).value);
    idx := idx + 1;
    if item.code.Some? {
      var code := dec.code(resp[idx]).value;
      idx := idx + 1;
      result := result.(code := Some(code));
    }
    if item.accessList.Some? {
      var storageProof;
      storageProof, idx := DecodeStorage(dec, item.accessList.value.storageKeys, resp, idx);
      acc := acc.(storageProof := storageProof);
    }
    result := result.(acc := Some(acc));
  }

  /** The inner loop of the demux pass: one storage entry per key. */
  method DecodeStorage(dec: Decoders, keys: seq<H256>, resp: seq<Raw>, idx0: nat) returns (entries: seq<StorageResult>, idx: nat)
    requires idx0 + |keys| <= |resp|
    requires forall j :: idx0 <= j < idx0 + |keys| ==> dec.storage(resp[j]).Ok?
    ensures idx == idx0 + |keys|
    ensures entries == StorageEntries(dec, keys, resp, idx0)
  {
    idx := idx0;
    entries := [];
    for j := 0 to |keys|
      invariant idx == idx0 + j
      invariant entries == StorageEntries(dec, keys[..j], resp, idx0)
    {
      assert StorageEntries(dec, keys[..j + 1], resp, idx0)
             == StorageEntries(dec, keys[..j], resp, idx0) + [StorageResult(keys[j], dec.storage(resp[idx]).value, [])] by {
        assert keys[..j + 1][..j] == keys[..j];
      }
      entries := entries + [StorageResult(keys[j], dec.storage(resp[idx]).value, [])];
      idx := idx + 1;
    }
    assert keys[..|keys|] == keys;
  }

  // ---------------------------------------------------------- demux properties

  lemma {:induction false} StorageEntriesAt(dec: Decoders, keys: seq<H256>, resp: seq<Raw>, base: nat, k: nat)
    requires base + |keys| <= |resp|
    requires forall j :: base <= j < base + |keys| ==> dec.storage(resp[j]).Ok?
    requires k < |keys|
    ensures StorageEntries(dec, keys, resp, base)[k] == StorageResult(keys[k], dec.storage(resp[base + k]).value, [])
  {
    var n := |keys|;
    if k < n - 1 {
      StorageEntriesAt(dec, keys[..n - 1], resp, base, k);
    }
  }

  /** Field by field, the direct result of an addressed descriptor whose answers
      start at `at`: the account is present and carries the descriptor's address,
      the balance read at `at` and the nonce read at `at + 1`, while the account
      proof stays empty and the code and storage hashes stay zero as in
      `AccountResult::default()`; code is present
      exactly when it was asked for, read at `at + 2`; there is one storage entry
      per requested key, in key order, with that key, the word read at its
      position and an empty proof. */
  lemma DirectResultFields(dec: Decoders, item: FetchState, resp: seq<Raw>, at: nat)
    requires item.addr.Some? && ItemReady(dec, item, resp, at)
    ensures DirectResult(dec, item, resp, at).acc.Some?
    ensures DirectResult(dec, item, resp, at).acc.value.address == item.addr.value
    ensures DirectResult(dec, item, resp, at).acc.value.balance == dec.balance(resp[at]).value
    ensures DirectResult(dec, item, resp, at).acc.value.nonce == dec.nonce(resp[at + 1]).value
    ensures DirectResult(dec, item, resp, at).acc.value.accountProof == []
    ensures DirectResult(dec, item, resp, at).acc.value.codeHash == Zeros(32)
    ensures DirectResult(dec, item, resp, at).acc.value.storageHash == Zeros(32)
    ensures DirectResult(dec, item, resp, at).code.Some? <==> item.code.Some?
    ensures item.code.Some? ==> DirectResult(dec, item, resp, at).code.value == dec.code(resp[at + 2]).value
    ensures |DirectResult(dec, item, resp, at).acc.value.storageProof| == KeyCount(item)
    ensures item.accessList.Some? ==>
      forall k :: 0 <= k < |item.accessList.value.storageKeys| ==>
        DirectResult(dec, item, resp, at).acc.value.storageProof[k]
        == StorageResult(item.accessList.value.storageKeys[k], dec.storage(resp[at + 2 + CodeSlots(item) + k]).value, [])
  {
    if item.accessList.Some? {
      var keys := item.accessList.value.storageKeys;
      forall k | 0 <= k < |keys|
        ensures DirectResult(dec, item, resp, at).acc.value.storageProof[k]
                == StorageResult(keys[k], dec.storage(resp[at + 2 + CodeSlots(item) + k]).value, [])
      {
        StorageEntriesAt(dec, keys, resp, at + 2 + CodeSlots(item), k);
      }
    }
  }

  /** Positional alignment of the demux: the result for addressed descriptor i is
      output number AddressedCount(list[..i]), and it is decoded from the answers
      starting at offset PlannedCount(list[..i]), the offset where the plan put
      descriptor i's calls. */
  lemma {:induction false} DirectDemuxAt(dec: Decoders, list: seq<FetchState>, resp: seq<Raw>, i: nat)
    requires DirectReady(dec, list, resp) && i < |list| && list[i].addr.Some?
    ensures ItemReady(dec, list[i], resp, PlannedCount(list[..i]))
    ensures AddressedCount(list[..i]) < |DirectDemux(dec, list, resp)|
    ensures DirectDemux(dec, list, resp)[AddressedCount(list[..i])] == DirectResult(dec, list[i], resp, PlannedCount(list[..i]))
  {
    var init := list[..|list| - 1];
    if i == |list| - 1 {
      assert list[..i] == init;
    } else {
      assert init[..i] == list[..i];
      assert init[i] == list[i];
      DirectDemuxAt(dec, init, resp, i);
    }
  }

  /** A batch answer that serves the direct plan satisfies everything the demux reads. */
  lemma ServesItem(dec: Decoders, item: FetchState, block: BlockSelector, resp: seq<Raw>, at: nat)
    requires at <= |resp| && Serves(dec, DirectCalls(item, block), resp[at..])
    ensures ItemReady(dec, item, resp, at)
  {
    if item.addr.Some? {
      var calls := DirectCalls(item, block);
      DirectCallsShape(item, block);
      assert Decodes(dec, calls[0], resp[at..][0]);
      assert Decodes(dec, calls[1], resp[at..][1]);
      if item.code.Some? {
        assert Decodes(dec, calls[2], resp[at..][2]);
      }
      forall j | at + 2 + CodeSlots(item) <= j < at + DirectCount(item)
        ensures dec.storage(resp[j]).Ok?
      {
        var k := j - at - 2 - CodeSlots(item);
        assert item.accessList.Some?;
        assert calls[2 + CodeSlots(item) + k]
               == GetStorageAt(item.accessList.value.address, item.accessList.value.storageKeys[k], block);
        assert Decodes(dec, calls[j - at], resp[at..][j - at]);
      }
    }
  }

  lemma {:induction false} ServesReady(dec: Decoders, list: seq<FetchState>, block: BlockSelector, resp: seq<Raw>)
    requires Serves(dec, DirectPlan(list, block), resp)
    ensures DirectReady(dec, list, resp)
  {
    if list != [] {
      var init, last := list[..|list| - 1], list[|list| - 1];
      var plan := DirectPlan(list, block);
      var head := DirectPlan(init, block);
      assert plan == head + DirectCalls(last, block);
      assert Serves(dec, head, resp) by {
        forall k | 0 <= k < |head| ensures Decodes(dec, head[k], resp[k]) {
          assert plan[k] == head[k];
        }
      }
      ServesReady(dec, init, block, resp);
      var at := PlannedCount(init);
      var calls := DirectCalls(last, block);
      assert Serves(dec, calls, resp[at..]) by {
        forall k | 0 <= k < |calls| ensures Decodes(dec, calls[k], resp[at..][k]) {
          assert plan[at + k] == calls[k];
          assert resp[at..][k] == resp[at + k];
        }
      }
      ServesItem(dec, last, block, resp, at);
    }
  }

  /** Conversely, answers the demux can read for a descriptor serve its calls. */
  lemma ItemServes(dec: Decoders, item: FetchState, block: BlockSelector, resp: seq<Raw>, at: nat)
    requires at <= |resp| && ItemReady(dec, item, resp, at)
    ensures at + DirectCount(item) <= |resp|
    ensures Serves(dec, DirectCalls(item, block), resp[at..])
  {
    if item.addr.Some? {
      var calls := DirectCalls(item, block);
      DirectCallsShape(item, block);
      forall k | 0 <= k < |calls| ensures Decodes(dec, calls[k], resp[at..][k]) {
        assert resp[at..][k] == resp[at + k];
        if k >= 2 + CodeSlots(item) {
          var k' := k - 2 - CodeSlots(item);
          assert calls[2 + CodeSlots(item) + k']
                 == GetStorageAt(item.accessList.value.address, item.accessList.value.storageKeys[k'], block);
        }
      }
    }
  }

  /** Answers the whole demux can read serve the whole plan: together with
      ServesReady, DirectReady is exactly the condition under which the demux
      neither indexes out of range nor unwraps a failed decoding. */
  lemma {:induction false} ReadyServes(dec: Decoders, list: seq<FetchState>, block: BlockSelector, resp: seq<Raw>)
    requires DirectReady(dec, list, resp)
    ensures |resp| >= PlannedCount(list)
    ensures Serves(dec, DirectPlan(list, block), resp)
  {
    if list != [] {
      var init, last := list[..|list| - 1], list[|list| - 1];
      var head := DirectPlan(init, block);
      assert DirectPlan(list, block) == head + DirectCalls(last, block);
      ReadyServes(dec, init, block, resp);
      ItemServes(dec, last, block, resp, PlannedCount(init));
      ServesAppend(dec, head, DirectCalls(last, block), resp);
    }
  }

  /** The demux can read the answers exactly when they serve the direct plan. */
  lemma DirectReadyIff(dec: Decoders, list: seq<FetchState>, block: BlockSelector, resp: seq<Raw>)
    ensures DirectReady(dec, list, resp) <==> Serves(dec, DirectPlan(list, block), resp)
  {
    if DirectReady(dec, list, resp) {
      ReadyServes(dec, list, block, resp);
    }
    if Serves(dec, DirectPlan(list, block), resp) {
      ServesReady(dec, list, block, resp);
    }
  }

  /** Inserting an addressless descriptor anywhere changes neither whether the
      demux can read the answers nor what it returns: it consumes no answer and
      produces no output, so the descriptors after it keep their alignment. */
  lemma {:induction false} DirectDemuxSkip(dec: Decoders, a: seq<FetchState>, x: FetchState, b: seq<FetchState>, resp: seq<Raw>)
    requires x.addr.None?
    ensures DirectReady(dec, a + [x] + b, resp) <==> DirectReady(dec, a + b, resp)
    ensures DirectReady(dec, a + b, resp) ==> DirectDemux(dec, a + [x] + b, resp) == DirectDemux(dec, a + b, resp)
  {
    if b == [] {
      assert DirectReady(dec, a + [x] + b, resp) == DirectReady(dec, a, resp) by {
        assert (a + [x] + b)[..|a + [x] + b| - 1] == a;
        assert (a + [x] + b)[|a + [x] + b| - 1] == x;
      }
      assert DirectReady(dec, a, resp) ==> DirectDemux(dec, a + [x] + b, resp) == DirectDemux(dec, a, resp) by {
        assert (a + [x] + b)[..|a + [x] + b| - 1] == a;
        assert (a + [x] + b)[|a + [x] + b| - 1] == x;
      }
      assert a + b == a;
    } else {
      var b', y := b[..|b| - 1], b[|b| - 1];
      var l, r := a + [x] + b, a + b;
      assert l[..|l| - 1] == a + [x] + b' && l[|l| - 1] == y by {
        assert l == (a + [x] + b') + [y];
      }
      assert r[..|r| - 1] == a + b' && r[|r| - 1] == y by {
        assert r == (a + b') + [y];
      }
      DirectDemuxSkip(dec, a, x, b', resp);
      assert PlannedCount(a + [x] + b') == PlannedCount(a + b') by {
        PlannedCountAppend(a + [x], b');
        PlannedCountAppend(a, [x]);
        PlannedCountAppend(a, b');
        assert PlannedCount([x]) == 0 by {
          assert [x][..0] == [];
        }
      }
    }
  }

  /** Round trip of the direct strategy: when the answers serve the planned batch,
      the demux yields exactly one result per addressed descriptor, and the result
      for addressed descriptor i is decoded from exactly the positions at which the
      plan put descriptor i's calls. */
  lemma DirectRoundTrip(dec: Decoders, list: seq<FetchState>, block: BlockSelector, resp: seq<Raw>, i: nat)
    requires Serves(dec, DirectPlan(list, block), resp)
    requires i < |list| && list[i].addr.Some?
    ensures DirectReady(dec, list, resp)
    ensures |DirectDemux(dec, list, resp)| == AddressedCount(list)
    ensures PlannedCount(list[..i]) + DirectCount(list[i]) <= PlannedCount(list) <= |resp|
    ensures DirectPlan(list, block)[PlannedCount(list[..i])..PlannedCount(list[..i]) + DirectCount(list[i])]
            == DirectCalls(list[i], block)
    ensures ItemReady(dec, list[i], resp, PlannedCount(list[..i]))
    ensures AddressedCount(list[..i]) < |DirectDemux(dec, list, resp)|
    ensures DirectDemux(dec, list, resp)[AddressedCount(list[..i])]
            == DirectResult(dec, list[i], resp, PlannedCount(list[..i]))
  {
    ServesReady(dec, list, block, resp);
    DirectPlanAlignment(list, block, i);
    DirectDemuxAt(dec, list, resp, i);
  }
}
