# A verified model of the client's hard cores

This project models five parts of an IRC client in Dafny 4.11 and proves what they promise. `dafny verify dfyconfig.toml`
checks it.

| part | files |
|---|---|
| key-binding compiler, matcher and event queue | `KeyNames`, `Compiler`, `CompilerMeaning`, `KeyboardConfigs`, `KeyboardTables`, `BindingRules`, `CompilerTheorems`, `Matcher`, `MatcherRuns`, `NativeBinding`, `NativeBindingRuns`, `NativeBindingRules`, `KeyOrder` |
| RPE2E: codecs, handshake, gate, messages, rotation, limiter | `Utf8`, `Codecs`, `Chunker`, `Wires`, `Handshakes`, `ParsedBodies`, `Limiter`, `Cryptos`, `ChannelReadings`, `Keyrings`, `KeyringRuns`, `KeyringRules`, `KeyringTrust`, `PeerTables`, `Endpoints`, `Gates`, `GateRules`, `Agreement`, `Messages`, `MessageParts`, `Conversation`, `Rotation`, `Dialogues` |
| highlight seeking and backlog | `HighlightSeeking`, `HighlightSeekGoals`, `HighlightSeekRuns`, `HighlightSeekSafety`, `HighlightSeekLimits`, `HighlightSeekExamples`, `Backlogs`, `BacklogPaging`, `BacklogRules` |
| bouncer: children and certificates | `BouncerChildren`, `ChildrenRuns`, `ChildrenStarts`, `ChildrenByHand`, `ChildrenInPlace`, `NetworkScopes`, `Certificates`, `CertificateRuns`, `CertificateEvidence` |
| structured settings | `JsonValues`, `JsonPointers`, `SettingsCollections`, `SettingsLaws`, `SettingsCells`, `SettingsRuns` |

Code that changes things step by step is a class or a method with loops, and each such method is proved to leave exactly the
state that a function of its old state gives; the theorems are about those functions, over whole runs. `Text`, `Seqs` and
`Wrappers` hold what the parts share.

## What the proofs assume

- Cryptography is ideal: Diffie-Hellman commutes, decryption inverts encryption under the same key, nonce and associated data,
  a signature verifies under its own key, and outputs have their sizes. These laws are the predicate `Ideal` over a record of
  functions, not axioms, and `IdealCryptoExists` shows that they are consistent. Random values are parameters; where freshness
  matters a theorem says which values must differ.
- The chat renderer clamps an offset idempotently, places a message at an offset that needs no clamping, and draws the same rows
  for the same messages and offset (`Steady`).
- The local date of a moment is a function of its second; a log is the table of one buffer in the order its query sorts by, with
  positive row ids and a seconds column that is the floored millisecond time.
- Bouncer child ids made for different bouncers, accounts or networks differ, suffixed or not (`ChildrenRuns.Separates`). This is
  asked only of canonical network ids, which is all that `normalize_network_id` lets into a registry, and of the accounts that
  occur in the run. `ProgramScopeSeparates` proves it of the program's own scope function, given that no two
  bouncers share a digest; `RawIdsCollide` shows that it fails for other ids.
- Where a round trip through JSON text is claimed, the one text written parses back to the value it was printed from.

## What is not unconditionally true

- Plain text with a chunk that starts with the byte 0x01 but not with the ACTION prefix is encrypted by the gate and then withheld
  by the receiver. `ShownExactly` is the exact condition and `ControlTextIsLost` an example.
- Handshake bodies parse back exactly when the context has no white space (`KeyreqRoundTrip`, `WrappedRoundTrip`).
- A key without terminal tokens overtakes the queue of pending keys (src/app/bindings.rs:175-179), so conservation counts the
  keys that have tokens (`ExactlyOnceDelivery`).
- A rotated key is never used again, but the recipients get a REKEY only when a message is the first to use the marked context. An
  answer to a KEYREQ clears the mark and the REKEY is lost (`AnswerLosesTheRekey`; `RekeysExactly` is the exact condition), so
  the runs of `Dialogues` answer others only in contexts that are not marked.
- Redraws make no difference between presses (`PressesAreAlike`), but they do before other input: a key, a scroll or the wheel
  drops the seeks that wait, and scrolls count from where the view was last put. `RunsStayInStepIff` and `SkippedRedrawsIff` are
  the exact conditions, for runs that drop no messages; `WheelAfterPress`, `ScrolledOntoMessage` and `QuietMotionIff` have inputs
  that fail them. `CollapseDropsIff` says exactly when a step drops messages, `WithinLimitKeepsAll` that buffers within their
  limit never lose any, `IdleFrame` what a frame that drops some leaves, and `IdleFrameForgets` what the next seek then finds.
  The comment at src/ui/chat_view.rs:106-108 calls the bound of eight passes a guard against a logic error;
  `EightPassesCanFallShort` shows queues that need more, which the next frame works off, and `FrameSettlesIff` exactly which.
- A REKEY carries nothing that tells an old one from a new one: an old one delivered again puts its listener back on the old key
  (`ReplayedRekeyIff`), so the runs of `Dialogues` have no KEYRSP or REKEY for the session but those sent in the run.
- Scrolling up shows the whole log only while the buffer holds fewer than 10,000 messages: `ScrollingReaches` has that bound, and
  `ScrollingIsBounded` says that it holds.
- A list made automatic in the editor is written back as `null` and loses its rows (`WriteBackRoundTrip`).
- A buffer cut between a date separator and the first row of that day gets no separator back there (`TrimmedHeading`).
- A seed can repeat a live line only in a buffer out of time order, and exactly when the line's second precedes the oldest line's
  (`SeedSkipsLiveLines`).
- A list cell reads back as it was typed exactly if no line is blank and none but the last ends in a carriage return
  (`ListReadsBackIff`); all other cells stand for the same value when read back (`CellReadsBack`).
- `set_cell` and a JSON-pointer read agree exactly for paths that are empty or have one leading slash and no escaped key
  (`WriteThenRead`); a write replaces arrays on its way by objects (`WriteElsewhere`).

## Model

| member | source | states |
|---|---|---|
| Matcher.Sequence.FeedEvent | shared/keybindings.rs:422-445 | fed a key's tokens: after expiry they extend, complete or break the pending sequence; leaves the buffer and emits the dispatches of `Feed` |
| Matcher.Sequence.ExpireAt | shared/keybindings.rs:404-416 | at the deadline fires a complete sequence or replays the tokens, before it does nothing; buffer and dispatches are those of `Expire` |
| Matcher.Sequence.DrainAll | shared/keybindings.rs:384-389 | gives back every pending token and empties the buffer |
| MatcherRuns.Conservation | shared/keybindings.rs:384-445 | over every run of feeding, timing out and draining, the tokens consumed by what was emitted, followed by what is pending, are the tokens typed, in order, none lost or repeated |
| MatcherRuns.RunIsJustified | shared/keybindings.rs:404-445 | between calls the buffer is empty or a strict prefix of an executable sequence, and an action not due to a timeout is never a proper prefix of a longer binding |
| MatcherRuns.ExpireActsIffDue | shared/keybindings.rs:391-416 | a timeout emits anything exactly when the deadline has passed, and otherwise changes nothing |
| MatcherRuns.TypedSequenceFires | shared/keybindings.rs:422-445 | an executable sequence no longer one extends fires once and alone when typed in time, however its tokens are grouped into events |
| MatcherRuns.DueIff | shared/keybindings.rs:391-403 | a timeout is due exactly once the wait is over, half a second for an escape alone and the configured time otherwise; never if that is zero |
| MatcherRuns.WaitStartsWithKey | shared/keybindings.rs:391-445 | what a key leaves pending waits from that key on |
| MatcherRuns.TimeoutFires | shared/keybindings.rs:404-445 | a sequence that a longer one extends, typed in time and followed by nothing until its timeout, fires then, once and alone; tokens that are no sequence are given back; a later key finds the matcher idle |
| MatcherRuns.BrokenPrefixStartsAfresh | shared/keybindings.rs:422-445 | a key that breaks what is pending gives it back, and that key and all that follow are matched as by an idle matcher |
| KeyNames.ParseComponents | shared/keybindings.rs:200-243 | the scanner loop returns the components of a key description, or fails, as the recursive definition says |
| KeyNames.ComponentsRoundTrip | shared/keybindings.rs:200-243 | components joined with hyphens scan back to the same components |
| BindingRules.ComponentsKeepText | shared/keybindings.rs:200-243 | components are the text of a key description, in order, without the hyphens between them |
| BindingRules.UnreadableHasStray | shared/keybindings.rs:200-243 | only a caret before something that is no control key makes a key description unreadable |
| BindingRules.ActionIsValidIff | shared/keybindings.rs:154-178 | a single action is valid exactly if it is one of the program's and fits its kind: a named key letters, digits and underscores, a window a number of 64 bits, a command one line with something in it |
| BindingRules.ListIsValidIff | shared/keybindings.rs:154-198 | an action list made of bindings is valid exactly if these are, none names a key and it is not nested too deep |
| BindingRules.NestedIsValidIff | shared/keybindings.rs:154-198 | action lists nest exactly eight deep |
| KeyNames.TerminalTokensOfEncoded | shared/keybindings.rs:245-287 | an encoded key is the escape token followed by its other characters, one token each |
| KeyboardConfigs.ExpandKey | shared/keybindings.rs:289-342 | the budgeted loops of the expander compute the recursive expansion, budget left over included |
| KeyboardConfigs.MultiplyWithin | shared/keybindings.rs:324-340 | the cartesian product loop, stopping when the budget or a sequence length is exceeded |
| KeyboardConfigs.KeyboardConfig.Compile | shared/keybindings.rs:120-151 | the keymap of the effective table, or failure; the configuration is left alone |
| KeyboardConfigs.KeyboardConfig.Set | shared/keybindings.rs:99-106 | succeeds exactly if the changed configuration compiles; then the key has the given entry and every other key the one it had; a failing change leaves the configuration as it was |
| KeyboardConfigs.KeyboardConfig.Remove | shared/keybindings.rs:108-113 | afterwards the key has no entry, default or not, and every other key the one it had |
| KeyboardConfigs.KeyboardConfig.Reset | shared/keybindings.rs:115-118 | afterwards the key has its default, disabled before or not, and every other key the entry it had |
| CompilerMeaning.ExpandExact | shared/keybindings.rs:289-342 | expansion succeeds exactly when the key has a meaning within 32 nested aliases that costs no more than the budget; it returns that meaning and uses exactly that cost |
| CompilerMeaning.ExpandIgnoresStackAndBudget | shared/keybindings.rs:289-342 | two successful expansions of a key agree, whatever stack and budget they started from |
| CompilerMeaning.KeyLanguage | shared/keybindings.rs:289-342 | a token sequence is in the meaning exactly when it is a spelling of the components in turn, each alias replaced by a spelling of one of its sources |
| CompilerTheorems.KeyCounts | shared/keybindings.rs:289-342 | every sequence has 1 to 128 tokens, and there are fewer of them than their cost |
| CompilerTheorems.CompilesIff | shared/keybindings.rs:120-151 | a table compiles exactly when its entries are valid, all have a meaning, and together they cost at most 4096 |
| CompilerTheorems.OverridePrecedence | shared/keybindings.rs:90-151 | each token sequence runs the entry that outranks every other entry spelling it: the last user entry in key order, a default only when no user entry spells it |
| KeyOrder.BeforeIff | shared/keybindings.rs:120-139 | the tables are in the order of the first difference between keys, shorter keys first |
| KeyboardTables.ConfigurationRuns | shared/keybindings.rs:90-151 | what a compiled configuration runs for a sequence is the first entry that can be typed so, the entries of the user before the defaults; an entry of the user replaces the default of its key, and a disabled default runs for nothing |
| KeyboardTables.ConfigurationCompilesIff | shared/keybindings.rs:120-151 | a configuration compiles exactly if every entry it has is valid, each can be typed within 32 nested names, and all together cost at most 4096 |
| KeyboardTables.SetTakesEffect | shared/keybindings.rs:99-106 | after a set that succeeds, whatever can be typed for the key runs the new entry or a later one of the user, never a default |
| KeyboardTables.RemovedRunsNothing | shared/keybindings.rs:108-113 | what was removed runs for no sequence |
| CompilerTheorems.CompiledSize | shared/keybindings.rs:120-151 | at most 4096 executable sequences, of 1 to 128 tokens |
| CompilerTheorems.CompiledAliasesAreAcyclic | shared/keybindings.rs:289-342 | a table that compiles has an acyclic alias graph of bounded depth |
| NativeBinding.NativeBindings.HandleKeyEvent | src/app/bindings.rs:143-193 | one key press: sync, bypass of keys without tokens, expiry, retry after a cancellation, feed, delivery, in that order; leaves the queue, buffer and deliveries of `HandleKey`, the step of `ExactlyOnceDelivery` |
| NativeBinding.NativeBindings.DispatchBindings | src/app/bindings.rs:230-260 | the queue is popped in step with the dispatches |
| NativeBinding.NativeBindings.TickBindings | src/app/bindings.rs:215-228 | sync, then expiry and delivery; leaves the queue, buffer and deliveries of `Tick` |
| NativeBindingRuns.AbsorbDelivers | src/app/bindings.rs:230-260 | delivering what one event caused uses up whole queued events from the front, as many tokens as were dispatched |
| NativeBindingRuns.ExactlyOnceDelivery | src/app/bindings.rs:143-260 | after any run the queue holds exactly the events whose tokens are pending; every key with tokens was replayed as its original event or absorbed by one action, once and in order; no key was synthesised |
| NativeBindingRules.BindingsFollowTheMatcher | src/app/bindings.rs:143-260 | over every run of keys, ticks and cancellations under one keymap, the bindings that run are those the matcher fires for the same tokens and times, in order |
| NativeBindingRules.NewKeymapForgets | src/app/bindings.rs:112-141 | when the keymap changes, keys pressed before are no part of any binding that runs after; a key pressed next runs bindings with that key alone |
| NativeBindingRules.TickSettles | src/app/bindings.rs:215-228 | after a tick that is not held back nothing is due |
| NativeBindingRules.KeysTypeTheirNames | src/app/bindings.rs:38-66 | pressing a key types what its name stands for in a configuration |
| NativeBindingRules.ModifiedKeysType | src/app/bindings.rs:38-66 | with Control a letter types its caret name, and with Alt any key types an escape first |
| NativeBindingRules.SynthesisedTypes | src/app/bindings.rs:68-93 | the key that stands in for a token types that token |
| Utf8.DecodesIff | scripts/weechat/rpe2e.py:2628-2631 | strict UTF-8 decoding accepts exactly the encodings and inverts them (section 3 of RFC 3629) |
| Chunker.SplitPlaintextBudget | scripts/weechat/rpe2e.py:1939-1963 | the loop computes the greedy cuts, or fails as the code does |
| Chunker.ChunksArePieces | scripts/weechat/rpe2e.py:1939-1963 | with a budget of at least four bytes the chunks are the encodings of non-empty pieces of the text, in order, each within the budget and each but the last unable to take the next character |
| Chunker.SplitBounds | scripts/weechat/rpe2e.py:1939-1963 | up to 16*(m-3) bytes always fit, more than 16*m never do, and no character is ever too large |
| Chunker.ChunksDecode | scripts/weechat/rpe2e.py:1939-1963 | each chunk decodes to its piece and the chunks concatenate to the encoded text |
| Codecs.FromHexToHex | scripts/weechat/rpe2e.py:1895-1932 | hexadecimal text reads back |
| Codecs.ParseIntToDecimal | scripts/weechat/rpe2e.py:1895-1932 | decimal text reads back |
| Codecs.FromBase64ToBase64 | scripts/weechat/rpe2e.py:1895-1932 | padded base64 (section 4 of RFC 4648) reads back |
| Codecs.Base64UrlRoundTrip | scripts/weechat/rpe2e.py:1234-1240 | unpadded base64url (section 5 of RFC 4648) reads back after re-padding |
| Wires.WireRoundTrip | scripts/weechat/rpe2e.py:1895-1932 | every well-formed wire is recovered from its text |
| Wires.AadIsInjective | scripts/weechat/rpe2e.py:748-772 | equal associated data means equal channel, message id, time, part and total |
| Handshakes.KeyreqRoundTrip | scripts/weechat/rpe2e.py:1243-1268 | a KEYREQ body is recovered field by field exactly when the channel has no white space |
| Handshakes.WrappedRoundTrip | scripts/weechat/rpe2e.py:1271-1344 | so is a KEYRSP or REKEY body |
| ParsedBodies.ParsedWireIs | scripts/weechat/rpe2e.py:1895-1932 | a line that parses is marked as one, is part p of t with p up to t up to 16, and has a whole nonce |
| ParsedBodies.ParsedKeyreqIs | scripts/weechat/rpe2e.py:1243-1268 | a KEYREQ body that parses has its tag, version 1, no field given twice, every field of the message, and keys, nonce and signature of their sizes |
| ParsedBodies.ParsedWrappedIs | scripts/weechat/rpe2e.py:1271-1344 | the same for KEYRSP and REKEY |
| ParsedBodies.KeyreqPayloadIsInjective | scripts/weechat/rpe2e.py:840-845 | the signed bytes of a KEYREQ determine its context, keys and nonce |
| ParsedBodies.WrappedPayloadIsInjective | scripts/weechat/rpe2e.py:846-895 | the signed bytes of a KEYRSP or REKEY determine everything it carries, given wrapped keys of one length |
| ParsedBodies.PayloadKindsDiffer | scripts/weechat/rpe2e.py:840-895 | the signed bytes of different kinds of messages differ |
| Limiter.IncomingLimiter.AllowIncoming | scripts/weechat/rpe2e.py:426-442 | allows or refuses by the bucket of this handle alone and updates that bucket only |
| Limiter.NothingForgotten | scripts/weechat/rpe2e.py:418-442 | on every ascending run the bucket decides like an ideal limiter that never forgets a request |
| Limiter.AllowedAreSpaced | scripts/weechat/rpe2e.py:418-442 | of any four allowed requests the last is at least 60 seconds after the first |
| Limiter.BackoffHolds | scripts/weechat/rpe2e.py:418-442 | after an over-limit refusal nothing is allowed for 300 seconds |
| Cryptos.IdealCryptoExists | scripts/weechat/rpe2e.py:775-838 | the assumed laws of the primitives are consistent |
| Agreement.KeyreqArrives | scripts/weechat/rpe2e.py:1347-1373 | the request printed is the one parsed: its signature verifies, and it carries our key, the context, and the secret and nonce drawn for it |
| Agreement.WrappedArrives | scripts/weechat/rpe2e.py:1376-1412 | so is an answer or a REKEY, with the nonces drawn for it |
| KeyringRules.AnsweredIff | scripts/weechat/rpe2e.py:1472-1610 | a KEYREQ is answered exactly if it parses, its limit allows it, its signature verifies, its context is enabled, nothing about its sender is suspicious, and a rule, a trusted session or the mode lets it be |
| KeyringRules.UnansweredLeaves | scripts/weechat/rpe2e.py:1472-1599 | all that an unanswered KEYREQ leaves: a note if its sender is suspicious, in normal mode the pending row and the stored request, in quiet mode the peer only |
| KeyringRules.AnsweredLeaves | scripts/weechat/rpe2e.py:1376-1425 | all that an answered KEYREQ leaves in the tables of peers, recipients, keys and sessions: the sender a trusted peer and a recipient, the key settled, no session touched |
| KeyringRules.KeyrspInstallsIff | scripts/weechat/rpe2e.py:1613-1741 | a KEYRSP installs a session exactly if it verifies, answers a pending request, carries a whole key for it, its sender is not suspicious and the row is free; then the request is used up and only row and peer change |
| KeyringRules.RekeyInstallsExactly | scripts/weechat/rpe2e.py:1744-1839 | a REKEY installs a session exactly if it verifies, comes from a known peer neither revoked nor under another handle, carries a whole key for us and the row is free; then only the row changes |
| KeyringRules.ShownIff | scripts/weechat/rpe2e.py:2525-2643 | a text is shown exactly if its line is timely, of at most 16 parts, opens to it under the trusted session of the shortest context the target can mean, with the associated data of that context, and is no CTCP request; late lines change nothing |
| KeyringRules.GarbledIff | scripts/weechat/rpe2e.py:2525-2643 | bytes that are not UTF-8 come out under the same condition |
| KeyringRules.AsksIff | scripts/weechat/rpe2e.py:2594-2620 | a line is met with a KEYREQ, for the shortest context, exactly if it is timely, no context has a trusted session, 30 seconds have passed since the last one and none is open |
| KeyringRules.AskedBackIff | scripts/weechat/rpe2e.py:1427-1471 | a KEYREQ is asked back exactly if our context is known, none is stored for this sender, there is no trusted session and 30 seconds have passed |
| KeyringRules.RequestsIff | scripts/weechat/rpe2e.py:1347-1373 | a request is built and stored exactly if none to that handle in that context is younger than 120 seconds |
| KeyringTrust.TrustHasASource | scripts/weechat/rpe2e.py:1472-1839 | over every run, a trusted session was trusted at the start under the same fingerprint or was vouched for by a verified handshake message on the way |
| KeyringTrust.StrangersGetNoKey | scripts/weechat/rpe2e.py:1554-1610 | over every run, in a context in quiet or normal mode a KEYRSP goes to a sender no rule trusts only on the strength of such a session |
| KeyringTrust.ShownIsVouchedFor | scripts/weechat/rpe2e.py:2544-2643 | over every run, nothing is shown but what opens under such a session, in a context the target can mean |
| KeyringTrust.RevokedStaysOut | scripts/weechat/rpe2e.py:1472-1839 | over every run, a revoked peer stays revoked, is never answered, and no session of it is installed or renewed |
| KeyringTrust.KeyreqsAreSpaced | scripts/weechat/rpe2e.py:2594-2620 | over every run, requests that go out by themselves to one handle are at least 30 seconds apart |
| Endpoints.Endpoint.HandleKeyreq | scripts/weechat/rpe2e.py:1472-1610 | statement by statement on the tables: limit, signature, enabled context, classification, then hold or answer and ask back; tables and answers are those of the handler over values, of which `AnsweredIff` and `UnansweredLeaves` speak |
| Endpoints.Endpoint.HandleKeyrsp | scripts/weechat/rpe2e.py:1613-1741 | uses up the answered request before unwrapping, then classifies and installs; tables and outcome as over values |
| Endpoints.Endpoint.HandleRekey | scripts/weechat/rpe2e.py:1744-1839 | verifies, classifies, unwraps and installs; tables and outcome as over values |
| Endpoints.Endpoint.BuildKeyreq | scripts/weechat/rpe2e.py:1347-1373 | refuses while a request is younger than its lifetime, otherwise stores the scalar and prints the request |
| Endpoints.Endpoint.BuildKeyrsp | scripts/weechat/rpe2e.py:1376-1412 | wraps the outgoing key for the request, trusts the peer and records it as a recipient |
| Endpoints.Endpoint.Reciprocal | scripts/weechat/rpe2e.py:1415-1449 | asks back unless asking, trusted or limited, and counts against the limit first |
| Endpoints.Endpoint.GetOutgoingKey | scripts/weechat/rpe2e.py:1966-1978 | hands out the key of a context, replacing it first if it is missing or marked |
| Endpoints.Endpoint.GetOutgoingKeyRotating | scripts/weechat/rpe2e.py:1981-1994 | the same, and says whether a rotation was pending |
| Endpoints.Endpoint.Classify | scripts/weechat/rpe2e.py:894-911 | how a peer compares with what the keyring knows |
| KeyringRuns.PinHolds | scripts/weechat/rpe2e.py:1472-1839 | over every run of received messages a trusted session keeps its fingerprint and its status |
| KeyringRuns.TrustIsVouchedFor | scripts/weechat/rpe2e.py:1613-1839 | a session becomes trusted only by a verified handshake message for it |
| KeyringRuns.SessionsAnswerDistinctRequests | scripts/weechat/rpe2e.py:1634-1660 | each KEYRSP that installs a session uses up a pending request of its own |
| KeyringRuns.MessagesLeaveSettings | scripts/weechat/rpe2e.py:1472-1839 | received messages change neither the identity nor the channel settings nor a key not up for rotation |
| Agreement.HandshakeAgrees | scripts/weechat/rpe2e.py:1347-1412 | request, answer and installation: for any white-space-free context and a peer not found suspicious, the requester ends with exactly the key the responder now sends with |
| Agreement.HandlersAgree | scripts/weechat/rpe2e.py:1472-1741 | the same through the handlers: whatever request the responder answers, its answer installs the key its tables then hold |
| Agreement.RekeyAgrees | scripts/weechat/rpe2e.py:1744-1861 | a REKEY installs the new key at a peer that knows the sender |
| ChannelReadings.ChannelReadingsOf | scripts/weechat/rpe2e.py:2125-2146 | the loops compute the readings of a status-prefixed target |
| ChannelReadings.ReadingsExact | scripts/weechat/rpe2e.py:2125-2146 | exactly the channel names left by stripping part of the leading status run, most-stripped first, without repetition |
| GateRules.GateDecides | scripts/weechat/rpe2e.py:2149-2256 | judged text passes exactly if every setting it falls under is off; is encrypted under a key exactly if that setting is on, all others are off and it can be encrypted; and is refused as unreadable, ambiguous or without a handle each exactly when it is |
| GateRules.UnjudgedIs | scripts/weechat/rpe2e.py:2169-2193 | CTCP requests pass, and lines for bots in a channel bypass encryption, with a warning unless all its readings read as off |
| Messages.PlainArrives | scripts/weechat/rpe2e.py:2075-2087 | the lines of a plain message open, in order, to pieces that concatenate to it |
| Messages.ActionArrives | scripts/weechat/rpe2e.py:2090-2109 | every line of an ACTION is one complete frame in a single chunk, and the frames bodies concatenate to the original body |
| MessageParts.PlainIsNumbered | scripts/weechat/rpe2e.py:2075-2087 | the lines of plain text are numbered parts of one message, each under a nonce of its own |
| MessageParts.ActionIsNumbered | scripts/weechat/rpe2e.py:2090-2124 | the lines of an ACTION are messages of one part, each with an id and a nonce of its own |
| MessageParts.NoncesDiffer | scripts/weechat/rpe2e.py:2075-2124 | no two lines of what is sent share a nonce, if the values drawn differ |
| Messages.ControlTextIsLost | scripts/weechat/rpe2e.py:2621-2643 | a text the gate encrypts and the receiver withholds: the round trip is not unconditional |
| Messages.ArrivedIsShown | scripts/weechat/rpe2e.py:2560-2643 | a line within the clock tolerance is read under the session and leaves the keyring alone |
| Conversation.MessageIsDelivered | scripts/weechat/rpe2e.py:2149-2256 | what the gate encrypts under the key of a session is delivered to its holder, plain text and ACTIONs alike |
| Conversation.ShownExactly | scripts/weechat/rpe2e.py:2621-2643 | of what the gate encrypts, an ACTION is shown whole, and of any other body the line of a chunk is shown exactly when the chunk does not start like a CTCP request |
| Conversation.BothChooseTheOnlyContext | scripts/weechat/rpe2e.py:2125-2146 | both ends take a target with one reading, and a DM, to mean the same context |
| Rotation.RotatedKeyIsNeverUsed | scripts/weechat/rpe2e.py:1966-1994 | once a context is marked, no later message line, KEYRSP or REKEY is made with the key it then held, whichever getter runs first |
| Rotation.RekeysExactly | scripts/weechat/rpe2e.py:2242-2247 | a message hands out the key exactly when a rotation is pending, and then to every known recipient, the new key |
| Dialogues.RekeyReaches | scripts/weechat/rpe2e.py:1744-1861 | what goes to a known recipient along with a message leaves its session with exactly the key the message is encrypted under, rotation pending or not |
| PeerTables.KnownStays | scripts/weechat/rpe2e.py:894-911 | whatever is received, a peer known under its handle stays known under it |
| PeerTables.RowStays | scripts/weechat/rpe2e.py:1472-1839 | nothing received touches the row of a trusted session but a KEYRSP or REKEY for it |
| Dialogues.DialogueIsHeard | scripts/weechat/rpe2e.py:2149-2256 | over every run of messages, marks, revocations, answers, and messages that others send to either side, ends that are in sync stay so and every encrypted message is delivered |
| Dialogues.RekeyInstallsIff | scripts/weechat/rpe2e.py:1744-1839 | a genuine REKEY, old or new, installs its key exactly at a peer that knows its sender and has no other session in the row |
| Dialogues.ReplayedRekeyIff | scripts/weechat/rpe2e.py:1744-1839 | one delivered again puts the ends out of sync exactly if the speaker has another key by now and no rotation is pending |
| Dialogues.HandshakeThenDialogue | scripts/weechat/rpe2e.py:1347-1412 | the whole promise: the exchange succeeds and every message of every such run after it is delivered |
| Rotation.AnswerLosesTheRekey | scripts/weechat/rpe2e.py:1966-1978 | when a KEYRSP uses a marked context first, the recipients are not told until the context is marked again |
| HighlightSeeking.NearestIsNearest | src/app/highlight_seek.rs:86-106 | the nearest highlight strictly on that side, or none there |
| HighlightSeeking.ChatView.Run | src/app/highlight_seek.rs:200-251 | the loop over the queue: ends on a message, at the live end with the rest deferred, or where it began |
| HighlightSeeking.ChatView.SeekHighlight | src/app/highlight_seek.rs:120-159 | one press: queued behind deferred ones, started from the sought message or the rows, or deferred |
| HighlightSeeking.ChatView.ResolveDeferredSeek | src/app/highlight_seek.rs:172-196 | runs the deferred seeks against the rows just drawn, or drops them if the view has moved; says whether to draw again |
| HighlightSeekGoals.RunQueueConcat | src/app/highlight_seek.rs:200-224 | a concatenated queue runs as its parts in turn, and the live end leaves the rest of the queue as it was |
| HighlightSeekGoals.PressGoal | src/app/highlight_seek.rs:120-159 | a press at any moment, if it drops no messages, moves the goal as a press followed by a redraw moves the view |
| HighlightSeekGoals.RedrawGoal | src/ui/chat_view.rs:104-115 | a redraw that drops no messages does not move the goal, and works off eight waiting seeks or all of them |
| HighlightSeekGoals.CollapseDropsIff | src/app/backlog.rs:892-911 | collapsing drops messages exactly at the bottom of a pinned buffer over its limit with no seek pending |
| HighlightSeekSafety.SoughtIsKept | src/app/highlight_seek.rs:225-251 | over every run of presses, scrolls and redraws, a message that was found stays in the buffer, which is pinned, until it has been shown or given up |
| HighlightSeekSafety.LostMessageGoal | src/app/highlight_seek.rs:134-159 | when the message last sought has been dropped, a press leads where one from the rows does |
| HighlightSeekRuns.WithinLimitKeepsAll | src/app/backlog.rs:892-911 | no run drops a message of a buffer within its limit |
| HighlightSeekRuns.MoveGoal | src/app/input.rs:284-296 | scrolling and other input drop the seeks that wait and head for what is at the offset reached, a sought message included if it was shown there |
| HighlightSeekRuns.StepIff | src/app/input.rs:94-100 | two views heading for the same place still are after an input exactly if the offset it reaches is the same and not that of a message shown in one of them only; for a press, exactly if not just one is about to be clamped back to a message from which the press leads elsewhere than from the rows |
| HighlightSeekRuns.RunsStayInStepIff | src/app/highlight_seek.rs:120-259 | two runs of the same presses, scrolls and other inputs that differ in when they are drawn are heading for the same place after every input exactly if that condition holds at every input |
| HighlightSeekRuns.DeferralIsTransparent | src/app/highlight_seek.rs:120-259 | then they show the same frame once drawn, whatever the size of the buffer, if all its messages are still there |
| HighlightSeekRuns.PressesAreAlike | src/app/highlight_seek.rs:198-200 | runs of presses alone always meet the condition: n presses before a redraw land where n presses with redraws in between do |
| HighlightSeekLimits.SkippedRedrawsIff | src/app/input.rs:94-100 | drawing a view before it is moved makes no difference exactly if the motion reaches the same offset from where the view is and from where its goal is shown, and does not meet the message that dropped seeks were leading to |
| HighlightSeekLimits.QuietMotionIff | src/app/input.rs:284-296 | with no seek waiting that fails in one case only: coming down some but not all of the way right after scrolling past the top |
| HighlightSeekExamples.WheelAfterPress | src/app/input.rs:563-572 | a chat in which a wheel-up right after a press lands elsewhere than after a redraw |
| HighlightSeekExamples.ScrolledOntoMessage | src/app/highlight_seek.rs:37-40 | a chat in which the same offset is reached, and the next press still leads elsewhere, because only the run that was drawn has shown the message there |
| HighlightSeekLimits.FrameSettlesIff | src/ui/chat_view.rs:104-115 | a frame works off all waiting seeks exactly if they return to the live end fewer times than it has passes |
| HighlightSeekLimits.EightPassesCanFallShort | src/ui/chat_view.rs:104-115 | of more than eight `Next` waiting below the last highlight, wherever the view was scrolled to, a frame works off eight and leaves the rest |
| HighlightSeekLimits.IdleFrame | src/app/backlog.rs:892-911 | what an idle frame leaves of any view it drops messages from: the newest messages, the rows, the seek and nothing pinned |
| HighlightSeekLimits.IdleFrameForgets | src/app/backlog.rs:892-911 | at the bottom of a pinned buffer over its limit, a press now and a press after an idle frame lead to the same message or both to none, exactly unless the frame drops the message found; then the later one stays where it started |
| HighlightSeekLimits.ClampedBack | src/app/highlight_seek.rs:37-40 | after scrolling past the top and being clamped back, a press before the redraw seeks from the rows and one after it from the message |
| Backlogs.RowsToBufferMessages | src/app/log_browser.rs:485-527 | the loop heads each day with a separator |
| BacklogRules.HeadedIs | src/app/log_browser.rs:485-527 | rows are shown in order with a separator above the first of each day |
| Backlogs.ChatBuffer.LoadBacklog | src/app/backlog.rs:92-190 | seeds from the log below the oldest real line and heads each day, once; where history is the server's the buffer is left alone and only a query has its gap requested |
| Backlogs.ChatBuffer.LoadOlder | src/app/backlog.rs:337-429 | one older page above the buffer, its repeated heading and the end marker dropped; a short page asks the server, and exhausts the buffer only if the server does not take over and its rows are all shown |
| Backlogs.ChatBuffer.DropEndMarker | src/app/backlog.rs:273-275 | only end markers go |
| Backlogs.ChatBuffer.MaybeLoadOlder | src/app/backlog.rs:282-333 | at the top of a chat buffer below the cap with nothing in flight: reads the log, or, where history is the server's or the log exhausted, asks the server; otherwise nothing |
| BacklogPaging.SelectBelowRow | src/storage/query.rs:300-355 | the rows below a row of the log are exactly those before it |
| BacklogPaging.OlderExtends | src/app/backlog.rs:337-429 | one older load of a window extends it by the page above, heads it as one load would, and exhausts the buffer only at the top of the log |
| Backlogs.ChatBuffer.FetchOlder | src/app/backlog.rs:462-560 | asks the server for what is before the watermark, the oldest stored row or the oldest line, only for channels and queries with the capability, something left and nothing in flight |
| BacklogPaging.OlderAddsPage | src/app/backlog.rs:337-429 | one older load of any buffer whose oldest real line is a row of the log puts the page before that row above its real lines, and exhausts it only at the top of the log |
| BacklogPaging.PagingIsLossless | src/app/backlog.rs:337-429 | n loads of any such buffer, trimmed or not, put the n pages above it there, each row once and in order; it is then exhausted exactly when the loads reached past the first row |
| BacklogPaging.PagingIsOneLoad | src/app/backlog.rs:337-429 | n loads of a window leave the messages, date separators included, that one load of all its rows gives |
| BacklogPaging.ReloadsAfterTrim | src/state/events.rs:276-297 | whatever was dropped above a cut comes back, rows in order, as if the buffer had never been cut there |
| BacklogPaging.TrimmedHeading | src/app/backlog.rs:372-409 | a page above a cut is headed as by one load exactly when the rows around the cut are of the same day |
| BacklogPaging.ScrollingIsLossless | src/app/backlog.rs:282-333 | over every run of calls of the pager, whatever connection and view they find and whatever is logged above and below in between, the lines are the rows from where the buffer now starts, the lines there were and those that came; and the buffer is exhausted only once the whole log is shown |
| BacklogPaging.ScrollingReaches | src/app/backlog.rs:282-333 | willing calls load a page each until the log ends, rows that came above meanwhile included, unless the buffer fills up to 10,000 messages |
| BacklogPaging.ScrollingIsBounded | src/app/backlog.rs:8-15 | no run of calls fills a buffer beyond 10,000 messages by more than a page, its headings and the live lines |
| BacklogPaging.OwnedNeverReads | src/app/backlog.rs:320-332 | where history is the server's the log is never read, and asking keeps the lines from collapsing |
| BacklogPaging.OneRequestAtATime | src/app/backlog.rs:462-560 | a request goes out only where the server can serve it and its rows can be kept, and none while one is in flight |
| BacklogPaging.FirstRequestAsksAboveTheOldest | src/app/backlog.rs:229-246 | with nothing stored or fetched the request is for what precedes the oldest line shown |
| BacklogPaging.GrowthKeepsWindow | src/app/backlog.rs:337-429 | rows logged above or below leave the window a window |
| BacklogPaging.SeedOpensWindow | src/app/backlog.rs:92-190 | a first seed shows the newest rows |
| BacklogPaging.SeedOnce | src/app/backlog.rs:66-79 | a seed that put anything in the buffer is the last one |
| BacklogRules.SeedGoesAbove | src/app/backlog.rs:66-190 | a seed around live lines puts the newest rows of earlier seconds above all lines there were, each once and in order |
| BacklogRules.ReconnectSeedsNothing | src/app/backlog.rs:66-190 | after any run of the pager over a buffer that shows a row of the log, a reconnect seeds nothing, marker or not |
| BacklogRules.PagerActsIff | src/app/backlog.rs:282-333 | the pager does nothing but at the top; there it asks the server where history is the server's or the log exhausted, and otherwise reads the newest 200 rows below the oldest line |
| BacklogRules.PageDropsMarkers | src/app/backlog.rs:337-429 | a page that is not empty leaves no end marker in the buffer and drops at most the head separator besides; an empty one leaves the messages as they are |
| BacklogRules.ServerIsAskedIff | src/app/backlog.rs:462-560 | exactly when a request goes out, for how many lines, and that it refers to how far the server was read, else to the oldest stored row, else to the oldest line |
| BacklogRules.ExhaustedIff | src/app/backlog.rs:337-429 | exactly when a buffer becomes exhausted: by a short page the server is not asked to go on from, once all that was logged from the server is shown |
| BacklogPaging.SeedSkipsLiveLines | src/app/backlog.rs:66-79 | the stored copy of a live line can be fetched exactly when its second is before the oldest line's; in time order it never is |
| BacklogPaging.OlderKeepsRealLines | src/app/backlog.rs:372-409 | whatever the buffer held, an older load only adds the page above its real lines |
| BacklogPaging.WindowRows | src/app/backlog.rs:337-429 | a window shows the rows of the log, each once and in order |
| Certificates.CertificateRequests.Command | src/app/bouncer_certificates.rs:63-102 | sends and records a request only when certificates are available, none is waiting and it is well-formed |
| Certificates.CertificateRequests.TickAll | src/app/bouncer_certificates.rs:113-124 | the loop over waiting operations: each fails when certificates go away or its time is up |
| Certificates.CertificateRequests.HandleMessage | src/app/bouncer_certificates.rs:134-197 | moves the waiting operation as the message says, or ends it at the PONG with its outcome |
| CertificateEvidence.DeletionIsSent | src/app/bouncer_certificates.rs:83-91 | a deletion sends the fingerprint as it was typed and waits for that certificate |
| CertificateEvidence.CreationIsSent | src/app/bouncer_certificates.rs:76-82 | a creation sends all its words, in order, as one name, exactly if the name has 1 to 64 bytes and no control character |
| CertificateEvidence.ChangeIsToldIff | src/app/bouncer_certificates.rs:63-197 | over every run, in the words received: a creation or deletion is told as done exactly if certificates are available at its PONG and were at every tick, a reply since confirms it, and none since rules it out |
| CertificateEvidence.RemovalNamesTheCertificate | src/app/bouncer_certificates.rs:192-194 | a certificate is reported removed only after a reply that names it, and never after one that names another |
| CertificateEvidence.TimesOutIff | src/app/bouncer_certificates.rs:113-124 | over every run, an operation counts as timed out exactly once a tick has found it waiting for more than 30 seconds |
| CertificateEvidence.RowReads | src/app/bouncer_certificates.rs:33-61 | a row shows the fingerprint and, in order, the name, time and address the server sent, unescaped |
| CertificateEvidence.MeaningOfList | src/app/bouncer_certificates.rs:153-190 | for a list, which messages open it, are rows of it, well-formed or not, or rule it out, in the words received |
| CertificateRuns.HandleNotes | src/app/bouncer_certificates.rs:153-197 | a message moves the flags as its meaning for the request says |
| CertificateRuns.ListFlagsAreExact | src/app/bouncer_certificates.rs:153-197 | the flags of a list say exactly whether the transcript holds one batch, opened, filled with at most 4096 well-formed rows and closed, with nothing harmful around |
| CertificateRuns.ChangeFlagsAreExact | src/app/bouncer_certificates.rs:183-195 | a creation or deletion is done exactly when acknowledged with no failure |
| CertificateRuns.OnlyTheBarrierTells | src/app/bouncer_certificates.rs:136-152 | success is told only at the PONG with the operation's own nonce |
| CertificateRuns.SuccessIsExact | src/app/bouncer_certificates.rs:134-197 | over every interleaving, success is told exactly when certificates are available at the barrier and the whole transcript since the request proves it; a list with exactly its rows |
| CertificateRuns.OneOutstanding | src/app/bouncer_certificates.rs:69-72 | until its own PONG or a reconnect an operation waits and every further command is refused |
| NetworkScopes.NormalizedIsStable | src/irc/bouncer.rs:12-21 | a normalised id is canonical, and normalising it again gives it back |
| NetworkScopes.NormalizesIff | src/irc/bouncer.rs:12-21 | exactly the positive numbers of 64 bits, with or without leading zeros, are network ids, and they lose the zeros |
| NetworkScopes.ProgramScopeSeparates | src/config/network_scope.rs:7-51 | the scope function of the program gives different child ids, suffixed or not, to different networks with canonical ids, if no two bouncers at hand share a digest |
| NetworkScopes.RawIdsCollide | src/config/network_scope.rs:7-51 | without canonical ids it does not: these ids share a child id |
| BouncerChildren.FreshId | src/app/bouncer_children.rs:201-207 | the suffix loop ends with the first free candidate |
| BouncerChildren.FirstFreeIs | src/app/bouncer_children.rs:201-207 | that candidate is not taken, and every earlier one is |
| ChildrenInPlace.BouncerApp.SuspendChildren | src/app/bouncer_children.rs:14-29 | flags the children of one bouncer and stops each that runs; all others stay |
| ChildrenInPlace.BouncerApp.StopChild | src/app/bouncer_children.rs:31-51 | ends the attempt and sets the status of one connection |
| ChildrenInPlace.BouncerApp.RemoveChild | src/app/bouncer_children.rs:86-108 | child, connection and attempt go; nothing else does |
| ChildrenInPlace.BouncerApp.ReconcileChild | src/app/bouncer_children.rs:137-225 | one network: its child is updated in place, replaced when its scope has changed, or created under a free id |
| ChildrenInPlace.BouncerApp.ReconcileChildren | src/app/bouncer_children.rs:110-135 | removes the obsolete children, reconciles every network, and keeps children unique, named by their scope and without control |
| ChildrenInPlace.BouncerApp.ReconnectChild | src/app/bouncer_children.rs:227-252 | clears the marks of a child and reconciles its bouncer; keeps the same invariant |
| ChildrenRuns.ReconcileOneIs | src/app/bouncer_children.rs:137-225 | afterwards the network has its child, bound to it and titled after it, and nothing else has changed |
| ChildrenRuns.SnapshotIsBijection | src/app/bouncer_children.rs:110-225 | after a snapshot the children of a bouncer and its networks are in bijection, and their connections are bound one to each network, titled after it, and missing only where ended by hand |
| ChildrenRuns.ChangedIsExact | src/app/bouncer_children.rs:110-135 | after a change of a network it has a child exactly if the registry has it |
| ChildrenRuns.OthersAreUntouched | src/app/bouncer_children.rs:110-225 | other bouncers' children and all other connections are left alone |
| ChildrenRuns.NewName | src/app/bouncer_children.rs:201-207 | a new child takes an id that no connection, configured server or child has |
| ChildrenStarts.StartsIff | src/app/bouncer_children.rs:137-225 | exactly which child is started, anew or in place, and that it gets the settings of the bouncer, its network, title and reconnect setting; any other connection changes in name only |
| ChildrenStarts.SuspendedIs | src/app/bouncer_children.rs:14-51 | when a bouncer is lost its children are suspended, those that were not have stopped, and no other is touched |
| ChildrenStarts.SnapshotRevives | src/app/bouncer_children.rs:110-225 | with the next snapshot each listed network has a running child again, but for those ended by hand |
| ChildrenStarts.RemovedIsGone | src/app/bouncer_children.rs:86-131 | a child whose network is gone from the registry goes, with its connection and any attempt to make one, and its name is not used again then |
| ChildrenStarts.ChangeKeepsOthers | src/app/bouncer_children.rs:123-131 | a change of one network removes no child of another, listed or not |
| ChildrenStarts.SnapshotRemovesIff | src/app/bouncer_children.rs:123-131 | a snapshot removes exactly the children whose networks it does not list |
| ChildrenStarts.ReconnectIff | src/app/bouncer_children.rs:227-252 | a child is asked for again exactly if its bouncer is connected and it does not run; otherwise nothing changes |
| ChildrenStarts.NobodyElseReconciles | src/app/bouncer_children.rs:110-122 | nothing is reconciled but for a bouncer that is connected, controls networks and has sent its registry |
| ChildrenByHand.DisconnectedIsDown | src/commands/handlers_irc.rs:209-221 | `/disconnect` of a child and the end of its connection leave it down by hand and not to be reconnected |
| ChildrenByHand.StaysDown | src/app/bouncer_children.rs:153-252 | over every run, reconnects of other children and reconnect timers included, a child disconnected by hand stays down while its network stays listed and its scope is unchanged |
| ChildrenByHand.ReconnectStarts | src/app/bouncer_children.rs:227-252 | asking for a listed network again starts its child |
| JsonValues.WriteThenRead | shared/settings_collection.rs:315-332 | writing and reading gives back the value, whatever was there, exactly for well-formed paths (section 4 of RFC 6901) |
| JsonValues.WriteElsewhere | shared/settings_collection.rs:315-332 | an incomparable path reads as before, unless an array on the way had to be replaced; then it reads as nothing |
| JsonPointers.PointerReads | shared/settings_collection.rs:163-170 | a pointer made of any names, escaped, reads what lies at them: through objects by name and through arrays by decimal index (sections 3 to 6 of RFC 6901) |
| JsonPointers.UnescapeEscaped | shared/settings_collection.rs:163-170 | every name comes back from its escaped form |
| SettingsCollections.SettingsCollection.UpdateRow | shared/settings_collection.rs:195-269 | either fails and changes nothing or leaves the collection with the edited row, no longer inherited |
| SettingsLaws.UpdateIsPrecise | shared/settings_collection.rs:195-269 | a successful edit changes one row, its name, and exactly the columns whose text changed, each to the value its text stands for |
| SettingsCells.CellReadsBack | shared/settings_collection.rs:163-193 | a written cell reads back, per kind: text and choices as typed, numbers without sign and leading zeros, toggles as on or off; and it stands for the same value |
| SettingsCells.ListReadsBackIff | shared/settings_collection.rs:241-246 | a list reads back as typed exactly if no line is blank and none but the last ends in a carriage return |
| SettingsCells.UpdateSucceedsIff | shared/settings_collection.rs:195-269 | an edit succeeds exactly if the name is not blank and no other row has it, there is a cell per column, the row is there, every changed cell fits its kind, and a comma-separated text has no comma or line break |
| SettingsLaws.SchemasAreApart | shared/settings_collection.rs:42-104 | the columns of every setting are well-formed and do not overlap |
| SettingsLaws.OpenedKeysHold | shared/settings_collection.rs:116-140 | an opened table has distinct names |
| SettingsLaws.UpdateKeepsKeys | shared/settings_collection.rs:201-210 | names stay distinct |
| SettingsLaws.WriteBackRoundTrip | shared/settings_collection.rs:271-294 | what is written back opens to the same rows: a table merges none and opens in key order, a list keeps its order; an inherited setting opens inherited, without the rows it may have had |
| SettingsRuns.SessionRoundTrip | src/ui/settings/collection.rs:161-227 | whatever is opened and then edited, removed, moved and made automatic, what is written back opens to the rows of the editor |
| SettingsLaws.DelimitedReopens | shared/settings_collection.rs:275-282 | a comma-separated setting opens to its texts, trimmed and without empty ones |
| SettingsLaws.DelimitedRoundTrip | shared/settings_collection.rs:105-112 | for every string, opened, written and opened again gives the same rows |
| SettingsCells.DelimitedOpens | shared/settings_collection.rs:105-140 | a comma-separated setting opens to trimmed texts that are not empty, and any such texts written with commas open to exactly these |
| SettingsRuns.DelimitedIsNotOptional | shared/settings_collection.rs:42-112 | no setting of the program is both comma-separated and optional |
| SettingsLaws.UpdateKeepsCommasOut | shared/settings_collection.rs:252-261 | an edit never brings a comma into a row |

## Left out

- Dialogues.DialogueIsHeard: the REKEY of a message arrives before its lines, as both are sent, and is not delivered again later, which `ReplayedRekeyIff` treats.
- HighlightSeekRuns.DeferralIsTransparent: messages change in a run only by collapsing, because indices would shift: none arrives, and no older page is loaded by scrolling up; resizing, the bare display and switching buffers are no inputs.
- BacklogPaging.ScrollingIsLossless: live lines that come in are not trimmed in the run; `ReloadsAfterTrim` treats a trim.
- Texts of errors and notices, logging, colours, terminal drawing, modal and shell effects of cancelled keys, and the bodies of bound actions.
- SQLite, clocks, randomness and the network: tables are maps, rows a sequence, times and random values parameters; database errors appear only as the gate's unreadable setting and a log that cannot be read.
- Time stamps in the keyring that nothing reads back, the old fingerprint kept with a recorded trust change, and the creation of an identity.
- Decoding with replacement characters: such a message is `Garbled`, its shown text is not modelled.
- Learning the own handle, resolving a nick to a handle and matching the autotrust rules: inputs of the steps that use them.
- Commands that edit the keyring other than handshake, accept, rotate and revoke, and export and import of the keyring; of revoke only the outgoing side is modelled, and of accept only the answer.
- Our own messages echoed back to us, and the input hook beyond its key getter and encryption, which are those of the gate.
- Non-ASCII digits in Python's `int()`.
- Key names and events are values of a datatype in place of crossterm's types; shell forwarding is left out.
- Highlight seeking has one chat buffer: a seek, or rows, of another buffer count as none, and no message arrives during a run.
- The message ids drawn for loaded rows, the texts of separators and of the end marker, encryption of the log. Of CHATHISTORY only the BEFORE request is modelled; the batch that answers it changes the log and the tracker between steps.
- Bouncer buffers, join focus, web events and the buffer renaming that goes with a new name; a child's own disconnection is taken to suspend no further children, and a connection controls a bouncer only by its configuration.
- `set_cell` descends by a mutable reference; here it is a recursive function of the value.
- `summary` and the labels of columns in the settings editor; numbers in JSON are known by the text they print as.
- Other bouncer features (management, metadata, web push, account registration), DCC, uploads, launch flags and the documentation build: none is part of this model.
