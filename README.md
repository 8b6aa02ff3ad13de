# Batched state fetch of the execution-layer client

This project is a Dafny model of `ExecutionClient::fetch_states` in
`src/execution_client.rs`. That function gathers account state for a list of
`FetchState` descriptors in one batch of JSON-RPC calls, and it has two strategies.
Each strategy makes two passes over the same list:

- a **plan pass** builds the ordered batch of calls;
- after the batch returns, a **demultiplexing pass** walks the flat answer list with
  one forward cursor and rebuilds one `FetchStateResult` per descriptor.

The two strategies differ as follows:

- **Direct** (`with_proof == false`). Every descriptor that resolves to an address asks for:
  - `eth_getBalance`,
  - `eth_getTransactionCount`,
  - `eth_getCode` when code is wanted,
  - one `eth_getStorageAt` per storage key.

  The demux reads the answers with an index cursor. Descriptors without an address are
  skipped in both passes.
- **Proof** (`with_proof == true`). Every descriptor asks for:
  - one `eth_getProof` that carries all its storage keys, when it has an access list;
  - `eth_getCode`, when code is wanted.

  The demux reads the answers from an iterator. The first answer that does not decode
  becomes a `SerdeResponseError` tagged `"fetch_states_with_proof"` that carries the
  raw answer text. An exhausted iterator ends the loop early.

The property that matters is positional alignment: each demux reads exactly the calls
its plan emitted, in the same order. In both strategies, descriptor `i`'s calls and the
answers its result is read from sit at the same offset, `PlannedCount(list[..i])` or
`ProofPlannedCount(list[..i])`.

Plans and demuxes are specified by recursive functions over list prefixes. The loops
(`PlanDirect`, `DemuxDirect`, `PlanWithProof`, `DemuxWithProof`) are proved equal to
those functions.

The project also models the block-selector routing of `get_block_generic` and
`trace_prestate`, as pure functions.

Collaborators that are not part of this model enter as parameters:

- The batch transport (`multi_chunk_rpc`) is a function from the call list to the
  answer list or an error (`Types.Transport`).
- The JSON decoder (`serde_json::from_raw_value` at the different result types) is a
  record of possibly failing decoding functions (`Types.Decoders`).
- The address a descriptor resolves to (`FetchState::get_addr`, defined in eth_types,
  which is not part of this model) is the field `addr` of `Types.FetchState`.

Panics of the source become preconditions:

- **Direct path.** It indexes `response[idx]` and `unwrap`s every decode, so it requires
  that the answers serve the direct plan (`ExecutionClient.DirectAnswered`).
- **Proof path.** It ends with `assert_eq!(out.len(), list.len())`, so it requires that
  the iterator does not run dry before the end of the list
  (`ExecutionClient.ProofAnswered`). `ExecutionClient.LengthPreservingProofAnswered`
  shows that every transport that returns one answer per call meets this condition.

On a short batch the proof strategy does not return partial results: after the
`break` (src/execution_client.rs:258, 267) the `assert_eq!` at line 273 fails and the
call panics. `ProofFetch.ProofDemuxShort` proves that a short, otherwise decodable answer list
leaves strictly fewer results than descriptors.

## Model

| member | source | states |
|---|---|---|
| DirectFetch.StorageCalls | src/execution_client.rs:186-191 | one storage call per key |
| DirectFetch.DirectCalls | src/execution_client.rs:175-191 | a descriptor's direct calls number DirectCount: 0 without an address, else 2 + [code] + N |
| DirectFetch.DirectPlan | src/execution_client.rs:173-192 | the direct batch has PlannedCount calls |
| DirectFetch.PlanDirect | src/execution_client.rs:173-192 | the plan loop builds exactly DirectPlan(list, block) |
| DirectFetch.PushItemCalls | src/execution_client.rs:180-191 | one iteration of the plan loop appends exactly the descriptor's DirectCalls |
| DirectFetch.PushStorageCalls | src/execution_client.rs:187-190 | the inner key loop appends exactly StorageCalls, one per key in key order |
| DirectFetch.StorageCallsAt | src/execution_client.rs:187-190 | the k-th storage call is eth_getStorageAt for the access-list address and key k |
| DirectFetch.DirectCallsShape | src/execution_client.rs:180-191 | an addressed descriptor's calls are balance, nonce, optional code, then one storage call per key in key order, 2 + [code] + N in all |
| DirectFetch.AddresslessPlansNothing | src/execution_client.rs:175-178 | a descriptor without an address plans no calls |
| DirectFetch.DirectPlanMethods | src/execution_client.rs:180-190 | every call of the direct batch goes out as eth_getBalance, eth_getTransactionCount, eth_getCode or eth_getStorageAt |
| DirectFetch.DirectPlanAppend | src/execution_client.rs:173-192 | the plan of a concatenated list is the concatenation of the plans |
| DirectFetch.PlannedCountAppend | src/execution_client.rs:173-192 | planned counts add up over concatenation |
| DirectFetch.DirectPlanAlignment | src/execution_client.rs:173-192 | descriptor i's calls occupy the batch slice starting at PlannedCount(list[..i]) |
| DirectFetch.DirectPlanSkip | src/execution_client.rs:175-178 | inserting an addressless descriptor anywhere leaves the batch unchanged |
| DirectFetch.StorageEntries | src/execution_client.rs:214-224 | one storage entry per requested key |
| DirectFetch.DirectResult | src/execution_client.rs:201-226 | the assembled result has an account carrying the descriptor's address, code exactly when code was requested, and one storage entry per requested key |
| DirectFetch.DirectDemux | src/execution_client.rs:194-228 | one result per addressed descriptor |
| DirectFetch.ReadyPrefix | src/execution_client.rs:196-227 | answers that satisfy the demux for a list satisfy it for every prefix of the list |
| DirectFetch.DemuxDirect | src/execution_client.rs:194-228 | the cursor loop yields DirectDemux and ends with idx equal to the planned count, so a full answer list is consumed exactly |
| DirectFetch.DecodeItem | src/execution_client.rs:201-226 | one demux iteration advances the cursor by DirectCount and builds DirectResult |
| DirectFetch.DecodeStorage | src/execution_client.rs:214-224 | the key loop advances the cursor by the key count and builds StorageEntries |
| DirectFetch.StorageEntriesAt | src/execution_client.rs:217-221 | entry k has key k, the storage word decoded at base + k, and an empty proof |
| DirectFetch.DirectResultFields | src/execution_client.rs:201-226 | the account is present with the descriptor's address; balance is read at the start offset and nonce at the next one; account proof is empty and code hash and storage hash are zero, as in `AccountResult::default()`; code is present iff it was requested and is read at offset + 2; there is one storage entry per key in key order, with that key and an empty proof |
| DirectFetch.DirectDemuxAt | src/execution_client.rs:194-228 | addressed descriptor i's result is at output position AddressedCount(list[..i]) and is read from answer offset PlannedCount(list[..i]) |
| DirectFetch.ServesItem | src/execution_client.rs:204-219 | answers that serve a descriptor's calls satisfy every read and unwrap of its demux iteration |
| DirectFetch.ServesReady | src/execution_client.rs:193-228 | answers that serve the whole plan satisfy every read and unwrap of the demux |
| DirectFetch.ItemServes | src/execution_client.rs:204-219 | if every read and unwrap of a descriptor's demux iteration succeeds on the answers, they serve that descriptor's calls |
| DirectFetch.ReadyServes | src/execution_client.rs:193-228 | if every read and unwrap of the demux succeeds on the answers, there are at least as many answers as planned calls and they serve the whole plan |
| DirectFetch.DirectReadyIff | src/execution_client.rs:193-228 | the demux reads in range and unwraps only successful decodings exactly when the answers serve the direct plan |
| DirectFetch.DirectDemuxSkip | src/execution_client.rs:197-200 | inserting an addressless descriptor changes neither the demux's readiness nor its output |
| DirectFetch.DirectRoundTrip | src/execution_client.rs:173-228 | when the answers serve the plan, there is one result per addressed descriptor, and descriptor i's calls and its result share offset PlannedCount(list[..i]) |
| ProofFetch.ProofCalls | src/execution_client.rs:238-245 | a descriptor plans AccountSlots + CodeSlots proof-path calls |
| ProofFetch.ProofPlan | src/execution_client.rs:236-246 | the proof batch has ProofPlannedCount calls |
| ProofFetch.PlanWithProof | src/execution_client.rs:236-246 | the plan loop builds exactly ProofPlan(list, block) |
| ProofFetch.PushProofCalls | src/execution_client.rs:238-245 | one plan iteration appends exactly the descriptor's ProofCalls |
| ProofFetch.ProofItem | src/execution_client.rs:252-271 | a completed iteration gives an account iff there was an access list and code iff code was requested, and advances the cursor by ProofCount; a failure is tagged "fetch_states_with_proof"; the iterator runs dry only inside the descriptor's calls |
| ProofFetch.ProofCallsShape | src/execution_client.rs:237-246 | one eth_getProof with all storage keys when there is an access list, then eth_getCode when code is wanted; independent of the resolved address |
| ProofFetch.ProofPlanMethods | src/execution_client.rs:236-246 | every call of the proof batch goes out as eth_getProof or eth_getCode |
| ProofFetch.ProofPlanAppend | src/execution_client.rs:236-246 | the proof plan of a concatenated list is the concatenation of the plans |
| ProofFetch.ProofPlanAlignment | src/execution_client.rs:236-246 | descriptor i's calls occupy the batch slice starting at ProofPlannedCount(list[..i]) |
| ProofFetch.DemuxWithProof | src/execution_client.rs:249-272 | the iterator loop yields exactly ProofDemux: the results so far, the first decoding error, or an early stop |
| ProofFetch.TakeItem | src/execution_client.rs:252-271 | one iteration reads the proof answer, then the code answer, failing or stopping exactly as ProofItem says |
| ProofFetch.ProofDemuxAbsorbs | src/execution_client.rs:257-267 | after an error or a break, later descriptors change nothing |
| ProofFetch.ProofItemTook | src/execution_client.rs:252-271 | an iteration completes iff the remaining answers serve the descriptor's calls, and it then advances by ProofCount |
| ProofFetch.ProofDemux | src/execution_client.rs:249-272 | a completed run has one result per descriptor and a cursor at the planned count, never past the answers; a failure is tagged "fetch_states_with_proof"; an early stop has fewer results than descriptors |
| ProofFetch.ProofDemuxRunning | src/execution_client.rs:249-274 | the demux completes iff the answers serve the whole proof plan |
| ProofFetch.ProofItemBad | src/execution_client.rs:254-267 | a failed iteration reports the context tag, the raw text of its first undecodable answer and the decoder's message for it |
| ProofFetch.ProofDemuxError | src/execution_client.rs:254-267 | a failed demux reports, tagged "fetch_states_with_proof", the raw text of the first planned answer that does not decode and the decoder's message for it; everything before it decoded |
| ProofFetch.BadItemExtends | src/execution_client.rs:254-267 | when the answers serve the batch so far and the next descriptor's read fails, its error carries the first undecodable answer of the extended batch and the decoder's message for it |
| ProofFetch.ProofItemExhausted | src/execution_client.rs:254-268 | an exhausted iteration means the answers end inside the descriptor's calls, and what is there decoded |
| ProofFetch.ProofDemuxStopped | src/execution_client.rs:258-268 | an early stop happens only on fewer answers than planned calls, all of which decoded |
| ProofFetch.ProofDemuxFull | src/execution_client.rs:249-273 | with at least the planned number of answers there is no early stop, and the demux fails iff some planned answer does not decode |
| ProofFetch.ProofDemuxShort | src/execution_client.rs:258-273 | a short, decodable answer list stops early, with fewer results than descriptors, so the length assertion fails |
| ProofFetch.ProofDemuxStopsIff | src/execution_client.rs:258-273 | the demux stops early, so the length assertion fails, exactly when the answers are fewer than the planned calls and all of them decode |
| ProofFetch.ProofDemuxAt | src/execution_client.rs:251-272 | in a completed run, result i has an account iff there was an access list (read at ProofPlannedCount(list[..i])), and code iff code was requested (read at the next answer); otherwise it is the all-None default |
| ProofFetch.ProofRoundTrip | src/execution_client.rs:236-274 | when the answers serve the plan, the demux completes with one result per descriptor, and descriptor i's calls and its result share offset ProofPlannedCount(list[..i]) |
| ExecutionClient.FetchStatesDirect | src/execution_client.rs:173-228 | a transport error is returned as is; otherwise Ok with DirectDemux of the answers, one result per addressed descriptor |
| ExecutionClient.FetchStatesWithProof | src/execution_client.rs:231-275 | a transport error or the first decoding error is returned; otherwise Ok with one result per descriptor |
| ExecutionClient.FetchStates | src/execution_client.rs:164-275 | with_proof selects the strategy; a transport error is returned as is; with proofs the first decoding error is returned, otherwise one result per descriptor; without proofs the direct demux of the answers, one result per addressed descriptor |
| ExecutionClient.DirectAnswered | src/execution_client.rs:204-219 | the no-panic condition of the direct path: whenever the batch succeeds, every cursor read is in range and every unwrap succeeds |
| ExecutionClient.ProofAnswered | src/execution_client.rs:258-273 | the no-panic condition of the proof path: whenever the batch succeeds, it has at least one answer per planned call or one of its answers fails to decode |
| ExecutionClient.LengthPreservingProofAnswered | src/execution_client.rs:248-273 | a transport that returns one answer per call never triggers the length assertion |
| ExecutionClient.StrategiesAgreeOnCode | src/execution_client.rs:183-185 | against a node that answers each call consistently, both strategies return the same code for every addressed descriptor |
| BlockRouting.BlockParamOf | src/execution_client.rs:123-129 | the block parameter reads back as the selector; the only tag sent is "latest" |
| BlockRouting.GetBlockRequest | src/execution_client.rs:123-129 | eth_getBlockByHash iff the selector is a hash, eth_getBlockByNumber otherwise; the parameter reads back as the selector and the only tag sent is "latest"; with_tx is passed through |
| BlockRouting.TracePrestateRequest | src/execution_client.rs:296-306 | routed iff the selector is not Latest; by hash iff a hash, by number iff a number; the parameter reads back as the selector; prestate tracer with memory capture off |
| BlockRouting.GetBlockRequestInjective | src/execution_client.rs:123-129 | a routed block request determines its selector and its with_tx flag |
| BlockRouting.TraceMatchesGetBlock | src/execution_client.rs:300-306 | a routed trace addresses the block with the same parameter as get_block_generic, and by hash exactly when get_block_generic does |

## Left out

- Transport: `multi_chunk_rpc`, its chunking into batches of 1000, and the network. They are the parameter `Types.Transport`; the model assumes nothing about it beyond `LengthPreserving`, `DirectAnswered` and `ProofAnswered` where they are stated, and `StrategiesAgreeOnCode` assumes a node that answers every call consistently and decodably.
- `client.req(...)?` serialisation failures in the plan passes: call parameters always serialise in the model, so neither plan pass fails.
- JSON decoding: serde and the wire encodings of SH160, SH256, SU256, SU64 and HexBytes are opaque `Types.Decoders` functions. Balances and nonces are unbounded `nat`s, so the 256-bit and 64-bit widths are not modelled.
- `FetchState::get_addr` is defined in eth_types, which is not part of this model. Its result is the field `addr` and is taken as given.
- ExecutionClient.FetchStatesDirect: the index-out-of-range and `unwrap` panics are not modelled as behaviour. The method requires that they cannot happen (`DirectAnswered`).
- ExecutionClient.FetchStatesWithProof: the `assert_eq!` panic after an early `break` is not modelled as behaviour. The method requires that it cannot happen (`ProofAnswered`). `ProofFetch.ProofDemuxShort` describes when it would happen.
- ExecutionClient.FetchStates: it inherits both preconditions above, one per strategy.
- BlockRouting.TracePrestateRequest: the `unimplemented!()` panic for `Latest` is modelled as the error value `Unimplemented`.
- BlockRouting: the single `rpc` call these functions end in, and the decoding of blocks and traces, are not part of this model. The model stops at the request.
- ExecutionClient.StrategiesAgreeOnCode: this covers code only. On the proof path, balance, nonce and storage come from the opaque decoding of an eth_getProof answer, so they cannot be compared with the direct path.
- `Vec::with_capacity` capacity hints have no observable effect and are not modelled.
- The single-call wrappers (`new`, `raw`, `chain_id`, `balance`, `head`, `nonce`, `gas_price`, `send_raw_transaction`, `estimate_gas`, `eth_call`, `get_code`, `get_codes`, `get_storage`, `get_proof`, `get_logs`, `get_block_number`, `get_block_simple`, `get_block_header`, `get_block`, `get_transaction`, `get_receipt(s)`, `get_dbnodes`) only pick a method name. They are not modelled.
- `to_tx_map` and `create_access_list` depend on foreign JSON-map helpers and are not modelled.
- The serde structs `EthCall`, `LogFilter`, `TraceConfig` (apart from the two fields sent by `trace_prestate`), `TxPrestateResult` and `PrestateAccount` have no behaviour and are not modelled.
- `src/lib.rs` only declares modules. The beacon client is not part of this model.
