# Verified model of miniapp-bridge

A Dafny model of the parts of the bridge where a mistake would be hard to see, with proofs of
what they promise. Everything is checked by `dafny verify dfyconfig.toml`.

**The generation-fenced bridge** (`internal/app`, `internal/cdp`). One upstream transport and
one CDP controller at a time share a table of pending requests. `Bridge.dfy` is a state machine
whose steps are the source's critical sections; `App.dfy` and `Correlator.dfy` are the classes
that carry them out on their fields, each method proved to do what the function of the state
machine says. On the state machine rest

- `Sections.dfy`: each section field by field, without those functions: who may claim and
  release, why a frame is refused, where a response goes, what is left behind;
- `Ownership.dfy`: the claim, install, release and finish protocol, for any number of
  connections in any interleaving;
- `Orders.dfy`: what every run keeps without assumptions on anyone, and how each operation
  changes table and fences;
- `Fences.dfy`: an answer to a request of one controller generation never reaches another. The
  code alone does not provide this. `Tolerated` says of each step, from the state before it,
  what it must not do:
  - prune by TTL the entry of a request that is on its way;
  - repeat an ID that is on its way;
  - bring a response with such an ID that answers nothing, such as a second answer;
  - while another controller is installed, bring an answer that does not unmarshal (a result
    that is no object, an error of the wrong shape): such a frame asks no fence, and is passed
    on even by a blocked bridge (`internal/app/app.go:637-666`);
  - forward a controller's frame with an ID but without a usable method, unless its ID is fenced or
    pending anyway: such a frame is not tracked, so nothing of it can be fenced
    (`internal/app/app.go:914-928`).

  `RightSpace` keeps the IDs of controllers apart from those of the bridge and the SDK.
  `StepExact` proves that a step keeps the invariant and misdelivers nothing if and only if it
  is tolerated, and `FenceSafety` and `AnswersSettle` draw the conclusions for every run of such
  steps. The claim is about answers to requests on their way; a response that answers none is
  an `Echo`, and belongs to nobody;
- `Exactness.dfy`: the invariant is the weakest one: from every reachable state that breaks it,
  with the app not closing and no entry past its deadline, some run of tolerated steps
  misdelivers an answer;
- `FenceCounterexamples.dfy`: seven runs, at least one for each assumption, in which exactly one
  step breaks it and an answer is misdelivered, and the converse, that no answer is misdelivered
  without such a step;
- `Conservation.dfy`: what becomes of every request, one by one and in total, over every run and
  without assumptions.

**The WMPF codec** (`internal/wmpf`). `Wire.dfy` holds varints, records and groups, and
`WireExact.dfy` proves it against the grammar of `WireGrammar.dfy`; `Schema.dfy` is the reflective
codec, with a schema in place of the struct type, and `SchemaMeaning.dfy` proves what it decodes
against `SchemaGrammar.dfy`; `SchemaLaws.dfy` has concatenation, round trip and unknown fields;
`Messages.dfy` the hand-written decoders; `Generic.dfy` the lossless one; `Transport.dfy` and
`Categories.dfy` the envelopes built on them, whose bytes `Layout.dfy` and `CategoryLayout.dfy`
spell out. The format is
that of the Protocol Buffers "Encoding" specification, sections "Base 128 Varints",
"Length-Delimited Records", "Last One Wins" and "Groups".

**Capture storage** (`internal/capture`). `Records.dfy`, `Names.dfy` and `Segmented.dfy` are the
segmented recorder: records, file names, and the writer with every system call free to fail.
`CaptureFormat.dfy` is the plain format, `Capture.dfy` its recorder, validator and replay,
`SegmentSnapshot.dfy` joins the two, and `Publication.dfy` is how a finished capture takes the
place of the previous one.

**Companions.** `RequestId.dfy` is the canonical key of JSON numbers (RFC 8259, section 6),
`Registry.dfy` the context registry with its carry-over to a new upstream, `Outbound.dfy` the
outbound queue of a WebSocket client, `EventBus.dfy` the SDK's subscriptions. `Prelude.dfy` is
shared vocabulary. Some predicates hold their body behind a quantifier over `Asked(question)`:
that keeps it out of proofs that do not look inside, and says nothing else.

Four places where the code does less than one might expect are stated exactly rather than
assumed away: fence safety (`Fences.StepExact`), segments beyond index 999999
(`Names.FoundUpTo`, `Segmented.NothingMissing`), a rollback that meets a stale backup
(`Publication.RestoredExactly`), and the selection of a context whose ID is empty
(`Registry.SelectionStays`). An empty raw part of a custom message is not told apart from
none after a round trip (`Categories.CategoryRoundTrip`).

## Model

| member | source | states |
|---|---|---|
| Ownership.StepKeepsOwned | internal/app/hardening.go:65-134 | every step of any interleaving keeps the protocol: per side at most one connection is reserved, installed or releasing; an installed owner carries the side's current generation; no generation is given twice |
| Ownership.RunKeepsOwned | internal/app/hardening.go:65-134 | the protocol holds after every run, of any number of connections |
| Ownership.ClaimedExactly | internal/app/hardening.go:247-292 | the claimed flag is set exactly while a connection of the side is reserved or releasing |
| Ownership.GenerationsIncrease | internal/app/hardening.go:95-134 | over every run, a connection installed later on a side has a strictly greater generation, and a generation once given never changes |
| Sections.ReserveExact | internal/app/hardening.go:65-83 | field by field: a side can be claimed exactly if nobody claims or owns it and the app is not closing; only its flag changes |
| Sections.UnreserveExact | internal/app/hardening.go:85-93 | field by field: the side's flag is cleared, and nothing else |
| Sections.InstallExact | internal/app/hardening.go:95-134 | field by field: the claim ends either way; a side without an owner gets it under the next generation unless the app is closing; a new upstream ends all fences and the block |
| Sections.ReleaseExact | internal/app/hardening.go:259-278 | field by field: only the owner under its own generation releases, and leaves the side claimed |
| Sections.FinishExact | internal/app/hardening.go:280-292 | field by field: the claim a release left ends exactly if nobody was installed since |
| Sections.RefusedExact | internal/app/app.go:914-978 | a frame with an ID is refused as disconnected exactly if a controller sent it and there is no upstream; as ambiguous exactly if a controller sent it, there is one, and the ID is fenced or the bridge blocked; by the subscription limit exactly if neither holds and the limit does; by the pending limit exactly if none of these holds and 4096 unexpired entries are there without its key; and not otherwise, whoever sent it |
| Sections.RefusedUntracked | internal/app/app.go:939-944 | a frame without a tracked ID meets the subscription limit alone |
| Sections.SendsExactly | internal/app/app.go:945-978 | a frame that is not refused is pending for 300 s under its sender's key, all other unexpired entries as they were; one the table refused leaves it pruned; any other leaves everything as it was |
| Sections.OutcomeExact | internal/app/app.go:637-666 | a response is dropped if fenced or the bridge is blocked, swallowed if the bridge's own request waits for it, and else passed on, settling the installed controller's entry or else the unscoped one |
| Sections.FencedExact | internal/app/generation_fence.go:72-83 | a fenced response consumes exactly its fence; a blocked bridge stays as it is |
| Sections.RespondExact | internal/app/app.go:769-784 | any other response prunes the table and takes exactly the entry that settles it |
| Sections.CancelExact | internal/app/app.go:1051-1061 | a cancellation takes the installed controller's entry, or else the unscoped one, prunes, and changes nothing else |
| Sections.LeaveControllerExact | internal/app/app.go:787-805 | a controller that leaves takes its entries; the IDs of the unexpired ones become fences of its generation, or everything is blocked if that makes more than 4096; all others are kept |
| Sections.LeaveUpstreamExact | internal/app/app.go:437-459 | an upstream that leaves takes table, fences and block with it, and fails exactly the unexpired entries of the installed controller |
| Fences.StepExact | internal/app/app.go:637-666 | a step keeps the fence invariant and hands no answer to a controller that did not ask if and only if it is tolerated: it prunes no request on its way, repeats no ID on its way, is no unasked-for response with such an ID, no unfenced frame without a method, and no answer that does not unmarshal while another controller is installed; the condition is on the state before the step |
| Fences.FenceSafety | internal/app/generation_fence.go:13-88 | over every fair run, whose steps are tolerated and use IDs of the right space, no answer to a controller's request reaches another controller, and the invariant holds at its end |
| Fences.AnswersSettle | internal/app/app.go:637-666 | after every fair run, an answer that unmarshals settles exactly the entry of the request it answers, if that has not expired and its generation is installed, and is dropped at a fence or by the blocked bridge if it is not |
| Fences.UntrackedExact | internal/app/app.go:914-928 | forwarding a controller's frame that has an ID but no method keeps the invariant exactly if the bridge is blocked, or the ID is not on its way and is fenced or pending already |
| Fences.SendExact | internal/app/app.go:914-978 | sending a frame keeps every request on its way covered exactly if nothing on its way is pruned and no ID on its way is repeated |
| Fences.AnswerExact | internal/app/app.go:637-666 | an answer, fenced or resolved, keeps all other requests covered exactly if none of them is overdue when the table is pruned |
| Fences.EchoExact | internal/app/generation_fence.go:72-83 | a second or replayed response does harm exactly if the bridge is not blocked and a request with its ID is on its way, or it prunes one |
| Fences.CancelExact | internal/app/app.go:1051-1061 | cancelling an SDK ID keeps every controller request covered unless pruning drops one on its way |
| Fences.LeaveExact | internal/app/app.go:787-805 | a leaving controller leaves each request on its way fenced, or the bridge blocked, exactly unless an overdue one was pruned and the fences did not overflow |
| Orders.LeaveParts | internal/app/generation_fence.go:13-29 | what a leaving controller leaves: its entries gone, their keys fenced, and the bridge blocked without fences exactly if the distinct keys pass the limit |
| Fences.InstallController | internal/app/hardening.go:121-131 | a newly installed controller finds no controller's entry in the table and no request of its generation on its way; every controller's request on its way is fenced, unless the bridge is blocked |
| Fences.InstallUpstream | internal/app/hardening.go:99-111 | dropping all fences for a new upstream is safe, because nothing of the old one is on its way |
| Fences.FindsOwn | internal/app/app.go:769-784 | a response that is not fenced finds its own controller entry, and never one of another scope |
| FenceCounterexamples.AfterExpiry | internal/cdp/correlator.go:299-308 | fence safety fails without its assumption: for every ID, an entry pruned by TTL while its request is on its way hands the first controller's answer to the second, by a run with exactly this one step at fault |
| FenceCounterexamples.AfterRepeatedId | internal/cdp/correlator.go:177-191 | fence safety fails without its assumption: for every ID, an ID sent again while it is on its way hands the first controller's answer to the second, by a run with exactly this one step at fault |
| FenceCounterexamples.AfterSecondAnswer | internal/app/generation_fence.go:72-83 | fence safety fails without its assumption: for every ID, a second answer to one request hands the first controller's answer to the second, by a run with exactly this one step at fault |
| FenceCounterexamples.AfterCancel | internal/app/app.go:1051-1061 | fence safety fails without its assumption: for every ID, an SDK cancellation of a controller's ID hands the first controller's answer to the second, by a run with exactly this one step at fault |
| FenceCounterexamples.AfterSharedId | internal/app/app.go:914-962 | fence safety fails without its assumption: for every ID, an SDK request with a controller's ID hands the first controller's answer to the second, by a run with exactly this one step at fault |
| FenceCounterexamples.AfterIllegibleAnswer | internal/app/app.go:637-666 | fence safety fails without its assumption: for every ID, an answer that does not unmarshal, and so asks no fence, hands the first controller's answer to the second, by a run with exactly this one step at fault |
| FenceCounterexamples.AfterUntrackedFrame | internal/app/app.go:914-928 | fence safety fails without its assumption: for every ID, a frame with an ID but no method, which nothing fences, hands the first controller's answer to the second, by a run with exactly this one step at fault |
| FenceCounterexamples.MisdeliveryNeedsFault | internal/app/app.go:637-666 | whenever an answer, one that does not unmarshal included, reaches a controller that did not ask, at least one step of the run was at fault |
| Exactness.Exactness | internal/app/generation_fence.go:13-88 | nothing weaker than the invariant would do: in every reachable state of an app that is not closing and has no entry past its deadline, the invariant holds if and only if no continuation of tolerated steps hands an answer that unmarshals to a controller that did not ask |
| Exactness.Breakable | internal/app/generation_fence.go:13-88 | from any such state where the invariant is broken, a continuation of tolerated steps is given that misdelivers an answer, whatever connections, fences and requests there are |
| Orders.RunOrderly | internal/cdp/correlator.go:177-257 | over every run from the initial state, with no assumption, controller entries exist only for the installed generation, none of them is fenced, and table and fences keep their limits |
| Orders.StepKeepsOrderly | internal/app/hardening.go:65-134 | each step keeps this, and that no request on its way is of a generation yet to come |
| Conservation.FrameOutcome | internal/app/app.go:914-978 | a network controller's frame with an ID and a method either gets one local error reply, with nothing forwarded and nothing added, or gets none and is pending under its own key, all other entries unchanged |
| Conservation.UntrackedOutcome | internal/app/app.go:914-928 | a frame with an ID but no method is forwarded whatever the fences say, and leaves no entry |
| Conservation.StepBalanced | internal/app/app.go:769-805 | one step accounts for every controller entry: those after it are those before, less the departed, plus the admitted, without overlap |
| Conservation.CausesEvident | internal/app/generation_fence.go:31-61 | each entry departs by exactly one of seven causes, and each cause leaves what it promises: resolved by a response passed on, cancelled, replaced by the same ID, past its deadline, answered with an error as the upstream left, fenced, or blocked |
| Conservation.RequestsConserved | internal/cdp/correlator.go:177-257 | over every run, admitted requests equal departed requests plus those still pending |
| Conservation.EveryFate | internal/cdp/correlator.go:177-257 | the fate of every pending request over every run: it waits, and is not admitted again, up to one step that ends it by one of the seven causes, with what that cause promises, or it is pending at the end |
| Conservation.AdmittedPending | internal/app/app.go:935-962 | a request that a frame admits is pending behind that step, so that its fate is settled by the above |
| Conservation.ClearBalanced | internal/app/app.go:1112-1118 | the final clear of Close finds no controller request left |
| Conservation.FailsClosed | internal/app/generation_fence.go:63-83 | after fence overflow and until the upstream changes, every response that unmarshals is dropped and every frame with an ID from a controller refused, over every run; a response that does not unmarshal is passed on all the same |
| Conservation.FenceLasts | internal/app/generation_fence.go:63-88 | over every run a fence stands, and its ID stays refused, until a response with that ID that unmarshals, or a change of the upstream |
| Conservation.ChangeReopens | internal/app/hardening.go:105-106 | a change of the upstream ends every fence and the blocked state |
| App.App.ReserveOwner | internal/app/hardening.go:65-83 | claims a free side, and only that, unless the app is closing |
| App.App.ReleaseReservation | internal/app/hardening.go:85-93 | gives the claim back and changes nothing else |
| App.App.InstallOwner | internal/app/hardening.go:95-134 | installs under the next generation exactly if the side is free; a new upstream clears the fences; the claim ends either way |
| App.App.OwnerCurrent | internal/app/hardening.go:247-257 | true exactly for the installed owner under its generation, and for legacy clients |
| App.App.ReleaseOwner | internal/app/hardening.go:259-278 | releases exactly the current owner, and leaves the side claimed |
| App.App.FinishOwnerRelease | internal/app/hardening.go:280-292 | ends the claim of the generation that was released, and of no other |
| App.App.AddCDPResponseFences | internal/app/generation_fence.go:13-29 | the loop fences every key, or blocks the bridge exactly if the distinct keys pass the limit |
| App.MarkAll | internal/app/generation_fence.go:20-28 | the loop stops at the first key that finds the map full, which happens exactly if old and new keys together pass the limit |
| App.App.CDPResponseFenced | internal/app/generation_fence.go:63-70 | whether the ID is fenced or the bridge blocked, and the generation that left the fence |
| App.App.ConsumeCDPResponseFence | internal/app/generation_fence.go:72-83 | consumes the fence of exactly this ID and returns its generation; a blocked bridge stays blocked |
| App.App.ClearCDPResponseFences | internal/app/generation_fence.go:85-88 | ends all fences and the blocked state, and nothing else |
| App.App.FailCurrentControllerRequests | internal/app/generation_fence.go:31-61 | returns each live request of the installed controller once, and takes exactly these out of the table |
| App.App.LeaveUpstream | internal/app/app.go:437-459 | the release path of the upstream: error replies for exactly the failed keys, then no requests and no fences |
| App.App.LeaveController | internal/app/app.go:787-805 | the release path of a controller: what it left pending becomes fences or the block |
| App.App.HandleResponse | internal/app/app.go:637-666 | drops, swallows or passes on a response as Bridge.Arrival says and changes the state as Bridge.Received does; a response that does not unmarshal is passed on and changes nothing |
| App.App.ResolveCDPResponse | internal/app/app.go:769-784 | the three lookups, each pruning first, resolve the entry of the preferred scope and no other |
| App.App.SendCDP | internal/app/app.go:914-978 | refuses with the source's reason in the source's order, or registers the request |
| App.App.BeginClose | internal/app/app.go:1081-1081 | sets the closing flag, and nothing else |
| App.App.ClearRequests | internal/app/app.go:1063-1063 | empties the table and reports the number of unexpired entries |
| App.App.CancelCDPRequest | internal/app/app.go:1051-1061 | removes the ID from the installed controller's scope, or from the unscoped one, and says whether it was pending there |
| Correlator.Correlator.constructor | internal/cdp/correlator.go:84-100 | limits outside their ranges take the defaults; the table starts empty |
| Correlator.Correlator.PruneExpired | internal/cdp/correlator.go:299-308 | the loop keeps exactly the entries before their deadline, and counts the rest |
| Correlator.Correlator.TryAddFor | internal/cdp/correlator.go:177-191 | adds or replaces the scope's entry unless a new key meets a full table of unexpired entries; expired ones never cause a rejection |
| Correlator.Correlator.ResolveFor | internal/cdp/correlator.go:199-210 | finds and removes exactly the unexpired entry of this scope and ID |
| Correlator.Correlator.CancelFor | internal/cdp/correlator.go:217-228 | removes exactly that entry, and says whether it was there |
| Correlator.Correlator.DrainFor | internal/cdp/correlator.go:244-258 | returns every unexpired request of the scope once and removes exactly these |
| Correlator.Correlator.Drain | internal/cdp/correlator.go:230-242 | empties the table and returns every unexpired request once |
| Correlator.Correlator.Clear | internal/cdp/correlator.go:260-260 | empties the table and reports the number of unexpired entries |
| Correlator.Correlator.LenFor | internal/cdp/correlator.go:270-284 | counts the unexpired entries of the scope |
| Correlator.LazyIsEager | internal/cdp/correlator.go:177-308 | with a clock that never goes back, any run of operations gives the answers of a table that drops entries exactly at their deadline |
| Correlator.PerformIsolated | internal/cdp/correlator.go:177-258 | an operation in one scope leaves the entries of every other scope as they were, and keeps the size limit |
| RequestId.SameKeyIffSameNumber | internal/cdp/correlator.go:135-155 | two number texts get the same key if and only if they denote the same rational number, whatever their digits and exponents; minus zero is zero |
| RequestId.IDKeysAgree | internal/cdp/correlator.go:112-133 | keys of request IDs are equal exactly for equal strings or equal numbers, and never across the two kinds |
| RequestId.AllKeysAgree | internal/cdp/correlator.go:112-133 | for all IDs, stable or not: equal keys are equal strings, equal numbers, or else equal texts of IDs that are neither |
| RequestId.StableExact | internal/cdp/correlator.go:112-133 | an ID is stable exactly if it is a string or a JSON number |
| RequestId.Canonicalize | internal/cdp/correlator.go:135-155 | the function with its loop over trailing zeros computes that key, or rejects the text |
| RequestId.DropZeros | internal/cdp/correlator.go:151-154 | the loop drops all trailing zeros and moves the scale by their number |
| RequestId.MatchWellFormed | internal/cdp/correlator.go:102-102 | the groups of a match have the form of a JSON number's parts (RFC 8259, section 6) |
| RequestId.MatchSpells | internal/cdp/correlator.go:102-102 | a match spells the whole text it was found in |
| RequestId.MatchComplete | internal/cdp/correlator.go:102-102 | every JSON number text is matched, with the groups it was made of |
| Wire.PutVar | internal/wmpf/protocol.go:94-100 | the loop appends the base-128 encoding |
| Wire.ReadVarAt | internal/wmpf/protocol.go:112-125 | reads exactly what Wire.ReadVar defines: at most ten groups, one bit of the tenth |
| Wire.ReadVarint | internal/wmpf/protocol.go:94-125 | every 64-bit value written by putVar is read back, wherever it stands and whatever follows |
| Wire.ReadVarIsUint64 | internal/wmpf/protocol.go:112-125 | whatever is read fits 64 bits, so the shifts lose nothing |
| Wire.ReadBytesAt | internal/wmpf/protocol.go:130-138 | reads a length-delimited record, or fails if it passes the end |
| Wire.SkipAt | internal/wmpf/protocol.go:139-181 | skips one value of any wire type, nested groups included, never past the end, where WireExact.SkipExact says |
| Wire.SkipGroupAt | internal/wmpf/protocol.go:158-178 | the group loop stops behind the matching end tag, and terminates on every input |
| Wire.ReadVarFrame | internal/wmpf/protocol.go:112-125 | a varint read is settled by the bytes it used: the same bytes elsewhere give the same value and length |
| Wire.ReadBytesFrame | internal/wmpf/protocol.go:130-138 | the same for a record |
| WireExact.SkipFrame | internal/wmpf/protocol.go:139-181 | the same for a skipped value, groups of any depth included |
| WireExact.RawFieldFrame | internal/wmpf/protocol.go:126-181 | the same for a whole field |
| WireExact.VarExact | internal/wmpf/protocol.go:112-125 | readVar reads a value exactly if at most ten bytes stand there, all but the last with the high bit, that denote it in base 128 modulo 2^64; it reads no others |
| WireExact.VarintShortest | internal/wmpf/protocol.go:94-100 | putVar writes the shortest varint of its number |
| WireExact.BytesExact | internal/wmpf/protocol.go:130-138 | a record is read exactly if a length and that many bytes stand there |
| WireExact.SkipExact | internal/wmpf/protocol.go:139-181 | skip stops at j exactly if what lies before j is a value of the wire type, by a grammar: a varint; eight bytes; a length and that many bytes; whole fields and an end key; nothing; four bytes; and for no other type |
| WireExact.RawFieldExact | internal/wmpf/protocol.go:126-181 | a field is passed over exactly if a key and a value of the wire type it names stand there |
| Schema.Unmarshal | internal/wmpf/messages.go:401-493 | the decoding loop computes Schema.Decode: fails on the same inputs, last scalar wins, lists append, unknown fields collect |
| Schema.MarshalMessage | internal/wmpf/messages.go:307-346 | the encoding loop computes Schema.Marshal: non-zero fields in struct order, then the unknown bytes |
| Schema.AppendFieldTo | internal/wmpf/messages.go:348-393 | appends one value of each kind as Schema.AppendField says |
| SchemaLaws.DecodeConcat | internal/wmpf/messages.go:401-493 | decoding a ++ b is decoding a, then applying the fields of b to the result |
| SchemaLaws.ParseConcat | internal/wmpf/messages.go:415-491 | the fields of a ++ b are those of a and then those of b |
| SchemaLaws.RoundTrip | internal/wmpf/messages.go:307-493 | every message that decoding can produce is read back from its encoding, nested messages included |
| SchemaLaws.DecodeMarshalDecode | internal/wmpf/messages.go:307-493 | whatever bytes decode to v, decoding Marshal(v) gives v again |
| SchemaLaws.UnknownPreserved | internal/wmpf/messages.go:307-346 | the bytes of all unknown fields of d, unchanged and in order, are the suffix of the re-encoding |
| SchemaLaws.DecodeCanonical | internal/wmpf/messages.go:401-493 | decoding produces only canonical messages, at every depth |
| SchemaLaws.StraysPartition | internal/wmpf/messages.go:424-431 | bytes that hold only unknown fields are the concatenation of these fields |
| SchemaLaws.ZeroLeftOut | internal/wmpf/messages.go:307-346 | the encoder leaves out zero values, and no others |
| SchemaMeaning.NarrowExact | internal/wmpf/messages.go:434-445 | a 64-bit value becomes truth, or is reduced modulo 2^32 into the range of uint32 or int32, or stays |
| SchemaMeaning.EntryExact | internal/wmpf/messages.go:415-491 | one turn of the decoding loop finds an entry exactly where the grammar has one: a key with a value for the last field of its number, or a whole field of a number the schema lacks |
| SchemaMeaning.ParseExact | internal/wmpf/messages.go:401-493 | the entries of a message are the only ones its bytes can be cut into |
| SchemaMeaning.DecodeExact | internal/wmpf/messages.go:401-493 | m is decoded from d exactly if d can be cut into entries that mean m: lists hold all values in order, other fields the last one or zero, the unknown part all other fields' bytes in order |
| Messages.DecodeDebugMessage | internal/wmpf/protocol.go:205-257 | accepts exactly what the schema-driven decoder accepts for the message type, with the same field values, 32-bit truncation and last-one-wins included |
| Messages.DecodeChrome | internal/wmpf/protocol.go:312-346 | the same for ChromeDevtools |
| Messages.DecodeCustom | internal/wmpf/protocol.go:357-391 | the same for CustomMessage, nil and empty raw bytes told apart as the decoder does |
| Generic.DecodeGeneric | internal/wmpf/generic.go:42-90 | accepts exactly the known types on runs of well-formed fields; the raw fields partition the input, and each is whole by itself, as Generic.WholeExact spells out |
| Generic.EncodeGeneric | internal/wmpf/generic.go:91-97 | concatenates the raw fields, so re-encoding gives the input byte for byte |
| Generic.WholeAlone | internal/wmpf/generic.go:42-90 | each raw field decodes alone to one field, ending where skip ends for its wire type |
| Generic.WholeAccepted | internal/wmpf/generic.go:42-97 | raw fields in any number and order are accepted again when concatenated |
| Generic.WholeExact | internal/wmpf/generic.go:42-90 | a raw field is whole exactly if it is a varint key of its number, at least 1, and its wire type, 0, 1, 2 or 5, and then a value of that type, by the grammar |
| Generic.CutIsUnique | internal/wmpf/generic.go:42-90 | there is at most one way to cut bytes into whole fields, so the decoder's is the only one |
| Generic.AcceptedExact | internal/wmpf/generic.go:42-97 | what is accepted is exactly what can be cut so |
| Transport.EncodeBaseResponseCodex | internal/wmpf/transport.go:252-260 | writes code and message, zeros included, and nothing for nil |
| Layout.BaseLayout | internal/wmpf/transport.go:252-260 | a base response byte by byte: literal keys, negative codes as 64 bits |
| Layout.RoomLayout | internal/wmpf/transport.go:262-278 | a room byte by byte |
| Layout.ListedLayout | internal/wmpf/transport.go:283-291 | a listed message byte by byte, without field 2 |
| Layout.DebugLayout | internal/wmpf/protocol.go:183-192 | a debug message byte by byte |
| Layout.EnvelopeLayout | internal/wmpf/transport.go:301-307 | the envelope byte by byte |
| Layout.ResponseLayout | internal/wmpf/transport.go:310-393 | the payload of every response byte by byte, nil base responses left out but in a login |
| Layout.SendReqLayout | internal/wmpf/transport.go:45-102 | a developer's request byte by byte |
| Transport.BaseRead | internal/wmpf/transport.go:252-260 | a base response is read back, negative error codes included |
| Transport.EncodeRoomInfoCodex | internal/wmpf/transport.go:262-278 | writes all six fields, and nothing for nil |
| Transport.RoomRead | internal/wmpf/transport.go:262-278 | a room is read back |
| Transport.EncodeListedDebugMessageCodex | internal/wmpf/transport.go:283-291 | writes all fields but after |
| Transport.ListedRead | internal/wmpf/transport.go:280-291 | a listed message is read back with after 0 |
| Transport.EncodeDataFormatCodex | internal/wmpf/transport.go:301-307 | writes the three envelope fields |
| Transport.EnvelopeRead | internal/wmpf/transport.go:36-40 | DecodeDataFormat recovers command, UUID and payload |
| Transport.EncodeClientResponseDataFormat | internal/wmpf/transport.go:310-393 | encodes exactly 1001 heartbeat, 1002 login, 1003 join, 1004 quit, 1005 sync, 1006 two acknowledgements, 2006 notify and 3001 to 3003 event, each with its own response, and fails otherwise |
| Transport.ExpectedExact | internal/wmpf/transport.go:310-393 | the commands by number and the one response that answers each |
| Transport.DecodesExactly | internal/wmpf/transport.go:193-236 | the commands a payload is decoded under, by number, 1000 and 2000 included, and the struct each is decoded as |
| Transport.AckRead | internal/wmpf/transport.go:211-211 | a SendDebugMessageResp, which only arrives, is read |
| Transport.ReceivedExact | internal/wmpf/transport.go:193-393 | what is lost on the way: after in lists, and in a login that a part was nil |
| Transport.ArrivedExact | internal/wmpf/transport.go:280-291 | a list arrives message by message, each with after 0 and all else as it was |
| Transport.ClientResponseRoundTrip | internal/wmpf/transport.go:193-393 | for every command and response encoded at all, DecodeDataFormat and DecodeResponsePayload recover it, but for after in lists and nil parts of a login, which become empty |
| Transport.EncodeDeveloperOutgoingDataFormat | internal/wmpf/transport.go:45-102 | encodes exactly a plain request under 2000, a parallel one under 2006, and a notification under 2006 if the flag is set, whatever unknown bytes the base request carries |
| Transport.DeveloperRequestRoundTrip | internal/wmpf/transport.go:45-191 | a developer request is recovered with its base request, unknown fields included, and all but after of its list |
| Transport.NotificationRoundTrip | internal/wmpf/transport.go:69-75 | a notification sent under the parallel command is read as one by a client |
| Transport.EncodeDebugMessage | internal/wmpf/protocol.go:183-192 | writes all six fields |
| Transport.DebugMessageRoundTrip | internal/wmpf/protocol.go:183-257 | what is written is decoded, and DecodeDebugMessage returns exactly the message written |
| Categories.EncodeCategory | internal/wmpf/protocol.go:485-592 | encodes exactly the values of the matching type, by the reflective codec or field by field; the four categories that pass their value through take any struct |
| Categories.DecodeCategory | internal/wmpf/protocol.go:393-483 | decodes by the hand-written or the reflective decoder, and rebuilds the value; a nil ping gives an empty object |
| Categories.ExplicitRead | internal/wmpf/protocol.go:485-592 | writing zero fields out changes nothing for the reader |
| Categories.CategoryRoundTrip | internal/wmpf/protocol.go:393-592 | for every category, decoding what was encoded gives the value; Remove and Connect drop the name, and an empty raw part becomes nil |
| CategoryLayout.EncodedExactly | internal/wmpf/protocol.go:485-592 | every value under every category: whether it is encoded, and its bytes with literal keys, zeros written or left out as the branch does |
| CategoryLayout.SurvivorExact | internal/wmpf/protocol.go:393-592 | nothing is lost on the way but the name of a removed or connected context, and that an empty raw part was not nil |
| CategoryLayout.DomRead | internal/wmpf/protocol.go:449-454 | a DOM operation or event decodes to its parameters and webview |
| CategoryLayout.NetworkRead | internal/wmpf/protocol.go:455-457 | a network call decodes to its name, task, headers and time |
| Records.ReplaySegmentRecords | internal/capture/segmented.go:483-520 | the reading loop submits the whole records in order, up to the one the callback refuses, and otherwise reports the first thing that is none |
| Records.SubmissionExact | internal/capture/segmented.go:483-520 | all frames before the refused one are submitted, and it is refused exactly if there is one of that number |
| Records.RecordLayout | internal/capture/segmented.go:267-279 | a record byte by byte: length, checksum, index, time and direction big-endian, the payload, and CMIT |
| Records.BigEndian | internal/capture/segmented.go:268-274 | the bytes of a number, most significant first |
| Records.ReadRecordExact | internal/capture/segmented.go:483-520 | for every byte string: a frame is read exactly if its whole record stands in front, marker, direction, length and checksum included; the end exactly if there is nothing; all else is corrupt |
| Records.ReplayExact | internal/capture/segmented.go:483-520 | for every byte string: replay gives exactly the frames whose records it starts with, as many as there are, and ends cleanly exactly if nothing is left |
| Records.ReplayRecords | internal/capture/segmented.go:268-289 | the records written are replayed exactly, and then whatever follows them |
| Records.CutIsDetected | internal/capture/segmented.go:483-520 | a segment cut at any byte replays exactly its whole records before the cut, ends cleanly if the cut is between records, and is reported corrupt otherwise |
| Records.WholeWithinExact | internal/capture/segmented.go:244-289 | the records counted before a cut are all that fit |
| Records.ChangeIsDetected | internal/capture/segmented.go:507-509 | other payload bytes under the same header are accepted exactly if the checksum agrees |
| Names.NameOrder | internal/capture/segmented.go:345-345 | names of found segments sort as their indices |
| Names.FoundUpTo | internal/capture/segmented.go:353-358 | the glob finds a segment exactly up to index 999999 |
| Segmented.LatestSegmentIndex | internal/capture/segmented.go:368-385 | the loop finds the highest index, 0 if there is none |
| Segmented.Defaults | internal/capture/segmented.go:55-69 | options that say nothing take 64 MiB a segment, four segments and a queue of 128; the others are kept |
| Segmented.StartExact | internal/capture/segmented.go:99-139 | each error is reported exactly if its own check fails and all before it pass, and a recorder starts exactly if all pass |
| Segmented.StartSegmented | internal/capture/segmented.go:99-139 | starts, or fails with the first error in the order of the checks: size, directory, lock, disk, glob; the lock is given back on failure, the directory stays as it is, and new indices come behind all old ones |
| Segmented.SegmentedRecorder.WriteFrame | internal/capture/segmented.go:145-170 | accepts exactly if the frame is small enough, the recorder neither closed nor failed, and the queue not full; only then the queue grows |
| Segmented.SegmentedRecorder.OpenSegment | internal/capture/segmented.go:315-323 | opens an empty segment under the next index, or fails |
| Segmented.SegmentedRecorder.FinishSegment | internal/capture/segmented.go:325-351 | whichever call fails, the open segment is published whole or not at all, and the invariant of what is published holds; it succeeds exactly if every call does |
| Segmented.RetainSegments | internal/capture/segmented.go:353-366 | removes the oldest files, and no other, down to the number to keep, or stops at the first removal that fails |
| Segmented.SegmentedRecorder.WriteRequest | internal/capture/segmented.go:244-289 | rotates exactly if the open segment has no room, then appends one whole record with the request's payload, number, time and direction; succeeds exactly if the record fits, the calls it makes succeed and the disk has room; a frame too large changes nothing |
| Segmented.SegmentedRecorder.TakeOne | internal/capture/segmented.go:215-222 | one turn of the writer keeps the invariant under every failure; a failure is for good; a recorder that has not failed fails exactly if the write does |
| Segmented.SegmentedRecorder.AbortSegment | internal/capture/segmented.go:231-238 | a failed recorder drops its open segment and touches no published one |
| Segmented.SegmentedRecorder.Stop | internal/capture/segmented.go:223-228 | a recorder that stops without failure has published every accepted frame, in order |
| Segmented.ReplaySegments | internal/capture/segmented.go:388-402 | replays segment by segment in name order, up to the first corrupt one or the frame the callback refuses |
| Segmented.ReplayIsSuffix | internal/capture/segmented.go:388-411 | at any time, replay gives the frames stored before and during the session from some segment boundary on, and from the first on if no more segments exist than are kept |
| Segmented.FilesInOrder | internal/capture/segmented.go:404-411 | the files are in name order, and none of the session exceeds the size limit |
| Segmented.NothingMissing | internal/capture/segmented.go:206-229 | after a stop without failure the stored frames are the older ones followed by every accepted one, and every segment is found exactly if the indices stay within six digits; at most the number of segments to keep remain |
| Segmented.RecordedExactly | internal/capture/segmented.go:206-302 | after a stop without failure, with indices in six digits, frame i behind the older ones has the payload and the time of the i-th request accepted, the number i, and direction 1 exactly for upstream, 2 exactly for downstream, 0 otherwise; with nothing removed that is what replay gives |
| Segmented.PublishedRecorded | internal/capture/segmented.go:244-302 | at any time and after any failure, so are the session's published frames the first requests accepted |
| Segmented.CutDirectory | internal/capture/segmented.go:388-411 | a published segment is cut at any byte: replay gives all earlier frames and the whole records before the cut, and stops there and reports it exactly if the cut is inside a record; otherwise it goes on with the next segment |
| Capture.WriteAll | internal/capture/capture.go:613-625 | all bytes reach the writer whatever parts it takes, or an error is reported and a prefix was written |
| Capture.ValidateReader | internal/capture/capture.go:539-593 | accepts exactly the captures Capture.Frames defines, with the source's first error and its counts; a snapshot is byte-identical |
| Capture.AcceptedExactly | internal/capture/capture.go:539-593 | a byte string is accepted with some frames if and only if it is the framing of these frames and they are within the limits |
| Capture.RejectedExactly | internal/capture/capture.go:539-593 | a byte string is rejected with an error exactly if accepted frames stand before bytes that have this fault first: cut, too long, one frame too many, too many bytes |
| Capture.FramedLayout | internal/capture/capture.go:160-168 | a frame is written behind its length, most significant byte first |
| Capture.ReplayFrames | internal/capture/capture.go:377-414 | replay succeeds exactly if validation under the replay limits does, with the same frames |
| Capture.ReplayAccepts | internal/capture/capture.go:417-440 | replay accepts exactly what validation without limits accepts and the limits admit, and reads the same frames |
| Capture.ReplayEach | internal/capture/capture.go:447-496 | submits nothing for a rejected source, and otherwise each frame once, in order, up to a refusal by the callback |
| Capture.ReplaySnapshot | internal/capture/capture.go:498-524 | submits each frame of an accepted snapshot once, in order |
| Capture.Recorder.WriteFrame | internal/capture/capture.go:136-189 | records the frame whole within the limits, or has failed for good; an oversized frame alone does not fail the recorder |
| Capture.Recorder.Close | internal/capture/capture.go:202-259 | only a recorder that never failed publishes, by publishGeneration, and what readers then find replays to exactly the recorded frames; one that failed changes nothing readers see |
| Publication.Disk.PublishGeneration | internal/capture/capture.go:271-301 | does what the reference does with the six files, whichever of its calls fail |
| Publication.PublishedExactly | internal/capture/capture.go:271-301 | succeeds exactly if the renames it needs succeed, and then readers find the new capture and its metadata |
| Publication.NothingLost | internal/capture/capture.go:271-301 | whichever calls fail, the rollback's included, a failure leaves each file of the old pair in its place or in its backup |
| Publication.RestoredExactly | internal/capture/capture.go:271-301 | if the calls of the rollback succeed, a failure leaves readers the old pair, if and only if no stale backup stood where a current file was missing, or the very first rename failed |
| Publication.StaleReturns | internal/capture/capture.go:287-297 | a run in which a stale backup is there without a current file, and the rollback shows it to readers |
| SegmentSnapshot.WriteSnapshotRecord | internal/capture/segmented.go:457-477 | adds one frame to the snapshot, or fails exactly if it passes the replay limits |
| SegmentSnapshot.CopySegment | internal/capture/segmented.go:483-520 | copies the frames of a segment in plain framing, and fails exactly if the segment is corrupt or passes the limits |
| SegmentSnapshot.PayloadsExact | internal/capture/segmented.go:448-467 | the snapshot takes each frame's payload, in order |
| SegmentSnapshot.SnapshotSegments | internal/capture/segmented.go:448-467 | the snapshot of a segmented capture is the plain framing of everything its segments replay, exactly if all are whole and within the limits |
| SegmentSnapshot.ReplayEachSegments | internal/capture/capture.go:451-477 | a segmented capture is submitted completely and in order, or not at all if any segment is corrupt or the limits are passed |
| Outbound.CheckBatch | internal/app/app.go:214-225 | the loop accepts a batch exactly if every message and the sum are within the limits |
| Outbound.WsClient.SendBatch | internal/app/app.go:194-233 | accepts the whole batch or nothing of it, exactly if open, within the limits and with room in the channel; the byte account stays exact and within its limit |
| Outbound.WsClient.Receive | internal/app/app.go:250-253 | the writer takes the oldest batch; its bytes stay accounted |
| Outbound.WsClient.WriteOne | internal/app/app.go:254-259 | one more frame of the batch reaches the transport, or the writer has failed |
| Outbound.WsClient.Settle | internal/app/app.go:260-262 | the account loses exactly the bytes of the batch that was in hand |
| Outbound.WsClient.FinishWriter | internal/app/app.go:263-271 | a failed or stopped writer ends, and the client is closed |
| Outbound.WsClient.WrittenPrefix | internal/app/app.go:242-273 | at every moment the frames written are the first of the accepted batches, flattened in acceptance order |
| Outbound.WsClient.AllWritten | internal/app/app.go:242-273 | with nothing queued or in hand and no failure, every accepted frame is written and the account is zero |
| EventBus.StepSound | sdk/service.go:1399-1451 | every operation keeps each channel gapless: it got exactly the publishes from its subscription to its end, is open exactly while subscribed, and slow exactly if it overflowed |
| EventBus.RunGapless | sdk/service.go:1359-1451 | over any run a channel holds and has handed out exactly the consecutive publishes of its share, and an end is final |
| EventBus.OverflowExactly | sdk/service.go:1432-1451 | a publish ends a subscription exactly if its buffer is full, and then puts nothing on its channel |
| EventBus.CapacityExact | sdk/service.go:1399-1412 | the buffer is what the subscriber asks for, or the bus's size, or 64, and at most 4096 |
| EventBus.SubscribeExact | sdk/service.go:1399-1423 | a new channel is empty, and open and subscribed exactly if the bus is open; all others stay |
| EventBus.OneChannelExact | sdk/service.go:1424-1431 | unsubscribing closes this channel alone and leaves what it holds; a receive takes its oldest value |
| EventBus.CloseExact | sdk/service.go:1502-1513 | closing the bus closes every channel, leaves what each holds, and is for good |
| EventBus.EventBus.AddSubscriber | sdk/service.go:1399-1423 | subscribes with the bounded buffer size, or gives a closed channel on a closed bus |
| EventBus.EventBus.PublishValue | sdk/service.go:1432-1451 | the loop delivers to every subscriber with room and ends the others, and closes no channel twice |
| EventBus.EventBus.Remove | sdk/service.go:1424-1431 | closes the channel of a subscriber once; removing it again changes nothing |
| EventBus.EventBus.CloseBus | sdk/service.go:1502-1513 | closes every open channel once, and the bus for good |
| Registry.ApplyKeeps | internal/context/registry.go:72-111 | every operation keeps the registry an insertion-ordered map within its capacity whose selection is a member exactly if it is non-empty |
| Registry.PutAt | internal/context/registry.go:72-85 | an update keeps its place and touches no other context |
| Registry.PutNew | internal/context/registry.go:72-85 | a new context goes to the end |
| Registry.DropAt | internal/context/registry.go:93-111 | a removal keeps the order of the rest |
| Registry.StaleChangesNothing | internal/context/registry.go:204-260 | operations of a generation that is not active change nothing |
| Registry.SelectionStays | internal/context/registry.go:81-83 | an upsert leaves the selection of a non-empty registry alone exactly if the selected ID is not empty, or nothing else could be selected |
| Registry.UpsertExact | internal/context/registry.go:72-85 | an update takes its place, a new context goes to the end if there is room, and else nothing happens; the selection is set if there was none |
| Registry.RemoveExact | internal/context/registry.go:93-111 | a removal closes the gap, and moves the selection to the first context left if it was removed |
| Registry.MemberExact | internal/context/registry.go:87-125 | what is not there is neither removed nor selected; what is there can be selected |
| Registry.GenerationsExact | internal/context/registry.go:169-261 | what clear and the beginning and end of a generation leave, and that an operation behind a generation is done exactly if it is the active one |
| Registry.NewRegistryWithCapacity | internal/context/registry.go:40-45 | makes an empty registry exactly for a capacity in range |
| Registry.Registry.TryUpsert | internal/context/registry.go:66-85 | does what the reference does, and rejects exactly a new ID at capacity |
| Registry.Registry.Remove | internal/context/registry.go:87-111 | does what the reference does; the selection moves to the first context if it was removed |
| Registry.Registry.Select | internal/context/registry.go:113-125 | selects exactly members |
| Registry.Registry.Selected | internal/context/registry.go:127-132 | returns the selected member, exactly if there are members |
| Registry.Registry.List | internal/context/registry.go:139-149 | lists in insertion order |
| Registry.Registry.Clear | internal/context/registry.go:169-181 | empties the registry and reports how many were in it |
| Registry.Registry.BeginGeneration | internal/context/registry.go:185-196 | clears for a new generation and reports how many contexts that removed, and changes nothing for the active one |
| Registry.Registry.EndGeneration | internal/context/registry.go:251-261 | clears and deactivates exactly the active generation, and reports how many contexts that removed |
| Registry.Registry.UpsertForGeneration | internal/context/registry.go:209-216 | upserts only for the active generation |
| Registry.Registry.SelectForGeneration | internal/context/registry.go:229-236 | selects only for the active generation |
| Registry.Registry.Reseed | internal/app/hardening.go:112-120 | carrying the contexts over to a new upstream owner leaves list and selection unchanged |

## Left out

- Sockets, HTTP upgrade, origin and loopback checks, logging, observers and JSON parsing: a frame is a decoded ID and method, and whether it unmarshals and whether the upstream's queue took it are inputs of the step.
- Subscription counting (`trackSubscriptionLocked`): its verdict is an input of a frame.
- Legacy clients of generation 0 and clients that are not network connections: release paths and frames are modelled for installed owners.
- Clocks: the time of each step is an input. Only `LazyIsEager` needs it not to go back.
- Fences.FenceSafety: leaves out what its assumptions exclude, which are the items listed under `Fences.dfy` above. Each has a counterexample.
- Exactness.Exactness: speaks of states with no entry past its deadline, since an overdue entry is a fault of its own at the next prune; and of an app that is not closing, to which no controller can connect.
- A response frame that also carries a runtime context event may be withheld by `applyCDPRuntimeContextEvent`; the model passes it on.
- App.App.LeaveUpstream: returns the requests that are answered with an error, not the fate of the replies, which may fail to be marshalled or queued.
- The names of categories: a category is its constructor, and that the empty name is a ping and two names mean Chrome data is left out.
- zlib, so `WrapData` and `UnwrapDebugMessage`; Frida, native code, installation and process discovery.
- The SDK service's start, close and pending map.
- Reflection and `any`: a schema plays the part of the struct type. What a decoder had stored before it failed is not modelled, only that it failed.
- Float arithmetic: a `fixed32` is four bytes, and a NaN pattern that Go would quieten is kept.
- The bitwise OR in `readVar` is an addition of groups that do not overlap; lengths are unbounded integers, and the round trips ask for encodings shorter than 2^63 bytes, which every Go slice is.
- SHA-256 and CRC-32: the checksum of a record is a parameter.
- Segmented.StartSegmented: each system call is an input that says whether it succeeds; directories are listings of segments, and temporary names are not modelled.
- Segmented.SegmentedRecorder.Close: does not wait, so the drain budget of `Close` is left out.
- The metadata lines of plain captures, which are bytes here, their lock file, and cancellation by context.
- Publication.Disk.PublishGeneration: `os.Stat` says whether a file is there; that it fails on one that is there is not modelled.
- The modules Outbound, Segmented and EventBus take each critical section as one step; goroutines and channels themselves are not modelled. Subscriptions are entries of a map, not objects.
- `EndGeneration` and the removal of contexts in the release path of the upstream, which touch the registry alone.
- App.App.InstallOwner: the app does not hold the context registry; Registry.Registry.Reseed is the loop that carries the contexts over.
- Registries of capacity 0, which the source gives the default on first use.
