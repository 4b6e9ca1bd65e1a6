# clash-companion in Dafny

clash-companion lets a paired controller drive an agent, a device running a proxy core, over
the LAN. This project models the path by which the agent tells a paired controller something
and takes orders from it, and proves what that path promises:

- **Canonical JSON** (`CanonicalJson`, `CanonicalEncoder`, `CanonicalParser`, `LogicalValue`,
  `RfcOrder`, with `Utf8Text`, `Utf16Order`, `Ordering` and `Decimal` below): the recursive encoder
  with minimal escaping, sorted keys and integer numbers. A parser written only for this project shows
  that the texts are uniquely decodable, `LogicalValue` when equal values have equal texts, and
  `RfcOrder` when the keys stand in the order of RFC 8785. `JsonWording` says which bytes they are.
- **The event stream** (`EventStream`, `StreamWording`, `Space`, `EventHub`, `Delivery`): framing, the fan-out hub with
  its bounded queues, the controller's line parser, and what reaches the controller in every
  interleaving and wherever the connection is cut.
- **Pairing and authorization** (`Pairings`, `StoreRuns`, `Store`, `Pins`, `Capabilities`, `Gateway`,
  `HandlerLaws`, `RunHistory`, `Resumption`, `Revocation`, `StreamClosing`, `StreamEnding`,
  `Admission`, `Consent`, `PinRuns`, `Scenarios`, `Agent`): the store and its file, the PIN manager, the auth wrapper, capability
  gating, unpairing and PIN pairing.
- **Codecs and order** (`Splitting`, `Percent`, `PairingUri`, `PairingUriLaws`, `UriWording`,
  `Whitelist`, `WhitelistTable`, `ProxyGroups`): the pairing URI, the whitelist of forwarded core calls, the group listing.

## How it is built

Code that works in loops over buffers, maps and fields is a method or a class here, proved
equal to a specification function; the promises are lemmas about that function. What a function
writes or decides by a table (words, escapes, names, levels, rules) is also stated by its characters
and numbers, without the constants it is written with. Where Go
ranges over a map, the method picks any remaining key (`:|`), so a result that is the same for
every choice does not depend on iteration order.

`Gateway` is a state machine: each step is one section under a mutex or one branch of a
`select`, and the steps of requests, streams and the user at the agent interleave freely. A
run is any finite sequence of enabled steps. Times, heartbeats and traffic ticks are steps
with arbitrary values. A run is one process: it starts from an empty store, and `Resumption` shows
that this covers an agent opened on a saved file. What the file holds after failed writes and
restarts is `StoreRuns`, whose steps are the contracts of the `Store` methods. `Agent` runs the handlers one at a time as methods over the real `Store`,
`PINManager` and `Hub` objects and shows that each is a sequence of `Gateway` steps.

Strings of the Go source are byte sequences where their bytes matter (URIs, paths, the event stream)
and Dafny strings (sequences of Unicode scalar values) where they are valid UTF-8 (JSON) or only
compared. Every lemma carries
`{:induction false}`: all inductions are written out.

Assumptions, each visible in the model: SHA-256 is injective (`Pairings.Sha256` is a
constructor); `NewToken` never repeats a token (`Pairings.FreshTokens`, the guards of
`AdminPair` and `IssueToken`, the precondition of `Agent.HandlePair`); an `Agent` gets a store whose
file held no hash twice, which every store keeps (`Store.Sound`); randomness, clock readings, write
results and the answers of the confirmer and the hooks are arguments; whether `net/url` takes a
delay-test URL for an absolute http(s) one, and what `strconv.Atoi` makes of the log limit, are
arguments too.

Where code and documentation differ, the code is modelled:

- `Decode` promises to reject an empty host (PROTOCOL.md section 6.1 and its own comment) and
  does not look at it. `PairingUriLaws.AcceptedPayload` says exactly when a payload without
  host is accepted; `EmptyHostExample` is such a URI.
- `Decode` reads its port with `Sscanf`: blanks and a sign may come before the digits and any text
  after them (`Percent.ScanIntExactly`, `PairingUriLaws.AnyPortText`); `OddPortExamples` are two such URIs.
- A payload whose host starts with `[` or contains `?` is encoded but does not come back.
  `PairingUriLaws.RoundTripExactly` is the exact condition.
- PROTOCOL.md section 3.4 calls the encoding RFC 8785 and has keys ascend by code point; section
  3.2.3 of RFC 8785 sorts them by UTF-16 code units. The encoder sorts by UTF-8 bytes, which is by code
  point. The text is that of the RFC's order iff no two keys of an object in it differ first in a
  character from U+E000 to U+FFFF against one beyond (`RfcOrder.TextIsInRfcOrderExactly`);
  `RfcOrder.TextOutOfRfcOrder` is a text with two that do.
- "Byte-identical output for the same logical value" (PROTOCOL.md section 3.4) fails for zero: the
  literal `-0` is kept as it stands (`LogicalValue.NegativeZeroIsWrittenAsItIs`).
  `LogicalValue.SameValueSameTextExactly` is the exact condition.
- `ProxyGroups` lists a group twice when GLOBAL names it twice (`ProxyGroups.ListedOnceExactly`).
- PROTOCOL.md sections 7.3 and 9.2 want every open stream of an unpaired controller closed. The code
  does that at once only through `dropDevice`, and not for a stream whose token was ended by a
  revocation at the agent or by a new pairing, or by an unpair request whose write failed, or that
  has not come to `dropDevice` yet, or that came to it before the stream subscribed.
  `StreamClosing.DeadStreamIsOpenExactly` is the exact condition and `Scenarios.LateSubscriberIsNotClosed`
  a run of the last kind: the events request was past the auth wrapper when the unpair request ran.
  Nor is a stream that is marked done silent: the hub goes on queuing for it, and `select` may pick a
  queued frame, even one published later, before `done` (`Scenarios.DroppedStreamWritesNewFrame`).
  Either way the stream ends at its first heartbeat; `StreamClosing.DeadStreamWritesExactly`,
  `DeadStreamPingsAtMostOnce` and `DeadStreamWritesUntilHeartbeat` say what it can write until then.
- The PIN flow "always prompts" (PROTOCOL.md sections 6.4 and 6.5), and an unconfirmed device connects
  only after a yes where the agent asks for one. A missing Confirmer counts as a yes: without one the
  right PIN is enough (`Consent.TokenWithoutAYes`), and the auth wrapper lets every device in unasked
  and marks it confirmed (`Consent.PassedWithoutAYes`). `Consent.TokensNeedAYesExactly` and
  `PassingNeedsAYesExactly` are the exact conditions.
- A newly paired controller is refused until the user confirms (PROTOCOL.md section 6.5), but a yes
  confirms whatever pairing the device has by then: in `Scenarios.OldYesConfirmsNewPairing` a yes to a
  request of the old pairing confirms the new one. `Consent.ConfirmedSincePaired` is what does hold.
- A revoked token is dead for the rest of the process; if the file could not be written it is accepted
  again after a restart (`StoreRuns.DeadTokenComesBack`). `StoreRuns.ReopenedStoreAccepts` says exactly
  which tokens are; `StoreRuns.DeadAcrossRestarts` that none comes back when no write fails.

## Model

| member | source | states |
|---|---|---|
| CanonicalEncoder.Marshal | go/internal/canonjson/canonjson.go:24-40 | From the decoded tree on: an error exactly when some number at any depth has a fraction or exponent, otherwise the one canonical text of the tree, whatever the order in which map keys are visited. |
| CanonicalEncoder.Encode | go/internal/canonjson/canonjson.go:48-100 | Appends the canonical text to the shared buffer and succeeds iff all numbers are integral. |
| CanonicalEncoder.EncodeString | go/internal/canonjson/canonjson.go:107-136 | Appends the quoted string with minimal escaping. |
| CanonicalEncoder.GatherKeys | go/internal/canonjson/canonjson.go:78-81 | Any enumeration of an object's keys yields each key once. |
| CanonicalEncoder.EncodeMembers | go/internal/canonjson/canonjson.go:77-95 | The members come out in the one sorted order, so the bytes are a function of the map. |
| JsonWording.Words | go/internal/canonjson/canonjson.go:50-65 | null, true and false are those letters, a number is its literal. |
| JsonWording.RefusedNumbers | go/internal/canonjson/canonjson.go:60-64 | A number is refused iff its literal has a '.', an 'e' or an 'E'. |
| JsonWording.StringText | go/internal/canonjson/canonjson.go:107-136 | A string is, between quotes and in order, each character's escape: seven short ones, \u00 and two lowercase digits for other controls, UTF-8 for the rest. |
| JsonWording.ArrayText | go/internal/canonjson/canonjson.go:66-76 | An array is its items in order, with commas between, in brackets. |
| JsonWording.ObjectText | go/internal/canonjson/canonjson.go:84-95 | An object is quoted key, colon and value for each key in sorted order, with commas between, in braces. |
| JsonWording.OkResponse | go/internal/canonjson/canonjson.go:53-58 | The eleven bytes of the answer with ok true. |
| CanonicalEncoder.TextHasNoControls | go/internal/canonjson/canonjson.go:107-135 | No byte below 0x20 in any canonical text, so no raw newline. |
| CanonicalJson.AcceptedNumbersAreIntegers | go/internal/canonjson/canonjson.go:60-65 | Of the trees a JSON decoder yields, the encoder accepts exactly those whose literals are all integers of RFC 8259. |
| CanonicalParser.CanonicalTextIsUniquelyDecodable | go/internal/canonjson/canonjson.go:48-136 | A parser recovers `(v, rest)` from a byte string iff the string is the encoding of the canonical value v followed by rest (not a digit after a number): decoding undoes encoding and re-encoding a parsed text is the identity. |
| CanonicalParser.EqualTextEqualValue | go/internal/canonjson/canonjson.go:48-100 | Equal bytes come from equal trees: no two canonical trees share a text. |
| LogicalValue.EqualIntegers | go/internal/canonjson/canonjson.go:60-65 | Two integer literals of one value are the same text, or they are `0` and `-0`. |
| LogicalValue.SameValueSameTextExactly | go/internal/canonjson/canonjson.go:10 | Trees of the same logical value, numbers compared as integers, have the same bytes iff they hold minus zeros at the same places. |
| LogicalValue.TextIsTheLogicalValue | go/internal/canonjson/canonjson.go:10 | Without a minus zero the bytes are the same iff the logical value is the same. |
| LogicalValue.NegativeZeroIsWrittenAsItIs | go/internal/canonjson/canonjson.go:60-65 | `-0` and `0` are one value with two texts. |
| Decimal.DigitsOfValue | go/internal/canonjson/canonjson.go:60-65 | A digit string without leading zeros is the only one of its value. |
| Ordering.SortedArrangementIsUnique | go/internal/canonjson/canonjson.go:82-83 | A set of keys has only one ascending arrangement. |
| Ordering.SortKeys | go/internal/canonjson/canonjson.go:83 | Sorting distinct strings gives that arrangement, whatever order they came in. |
| Ordering.SortedKeysAscendByCodePoint | go/internal/canonjson/canonjson.go:82-83 | Keys sorted by bytes are strictly ascending by Unicode code point. |
| Utf16Order.OrdersAgreeExactly | go/internal/canonjson/canonjson.go:82-83 | For all strings the encoder compares two keys as section 3.2.3 of RFC 8785 does iff they do not differ first in one character from U+E000 to U+FFFF and one beyond. |
| Utf16Order.SortedAsTheRfcExactly | go/internal/canonjson/canonjson.go:82-83 | The encoder's arrangement of a set of keys ascends by UTF-16 code units iff no two of them do so. |
| Utf16Order.SameArrangementExactly | go/internal/canonjson/canonjson.go:82-83 | So the RFC's arrangement and the encoder's are one exactly then. |
| RfcOrder.TextIsInRfcOrderExactly | go/internal/canonjson/canonjson.go:3-9 | For every canonical tree: the encoder's text equals the text with the keys of every object in the RFC's order iff no object at any depth has two such keys. |
| RfcOrder.TextOutOfRfcOrder | go/internal/canonjson/canonjson.go:3-9 | The text of an object with the keys U+FF5E and U+10000 is not in the RFC's order. |
| Utf8Text.ByteOrderIsCodePointOrder | go/internal/canonjson/canonjson.go:82 | For all strings, byte order of the UTF-8 encodings is code point order (1 to 4 byte sequences of RFC 3629). |
| Utf8Text.RuneByBytes | go/internal/canonjson/canonjson.go:131 | Every character has the lead and continuation bytes of the table of RFC 3629, six bits each. |
| Utf8Text.TextLessExactly | go/internal/canonjson/canonjson.go:82 | A text is less iff it ends first or has the smaller character at the first difference. |
| Utf8Text.DecodeEncodedRune | go/internal/canonjson/canonjson.go:131 | Every rune is decoded back from its UTF-8 bytes, whatever follows. |
| Utf8Text.EncodeDecodedRune | go/internal/canonjson/canonjson.go:131 | And the strictly decoded bytes are that rune's own encoding. |
| EventStream.Events | go/controller/events.go:93-122 | The scan loop delivers what the line-by-line specification says, ending in an error exactly on a line at the scanner's limit. |
| StreamWording.ItemByLetters | go/agent/events.go:37 | A frame is "event: ", its kind, a newline, "data: ", its text and two newlines; a heartbeat is ": ping" and two newlines. |
| StreamWording.LineEnds | go/controller/events.go:97-98 | A line of less than a mebibyte ends at a newline; one carriage return before it goes too, any other stays. |
| StreamWording.LineTooLong | go/controller/events.go:94 | A line of 1048576 bytes or more ends the stream with an error. |
| StreamWording.LastLine | go/controller/events.go:97 | What ends without a newline is a line. |
| StreamWording.BlankLine | go/controller/events.go:100-107 | A blank line dispatches type, or "message", and data joined by newlines, unless there are neither. |
| StreamWording.FieldLines | go/controller/events.go:108-113 | An event line sets the trimmed type, a data line adds its value without one space, all other lines change nothing. |
| Space.SpaceByCodePoint | go/controller/events.go:111 | White space is exactly the characters of unicode.IsSpace. |
| Space.TrimSpaceStrips | go/controller/events.go:111 | Trimming takes white space off both ends, all of it and nothing else. |
| EventStream.ReceiveFrame | go/agent/events.go:32-38 | A frame followed by anything yields its own event and then what the rest yields; an oversized data line stops the scanner. |
| EventStream.StreamRoundTrip | go/controller/events.go:93-115 | For all frames and heartbeats in any order, the controller delivers exactly the frames' kinds and texts, in order. |
| EventStream.CutStreamDeliversWholeEvents | go/controller/events.go:97-115 | Cut at any byte: exactly the events whose blank line arrived, up to the first oversized one, each intact, never a partial one. |
| EventStream.WholeCountsCompleteItems | go/agent/events.go:37 | The count used there: j items are whole iff the bytes of the first j items fit in the cut. |
| EventStream.EventsDetermineFrames | go/controller/events.go:24-27 | Equal delivered events mean equal kinds and equal JSON values were sent. |
| EventStream.ReceiveBlock | go/controller/events.go:100-120 | Whatever lines come before a blank one, with or without carriage returns: they make one event of the last event line's type, or "message", and all data values joined by newlines; none if there is neither. |
| EventStream.ReceiveUntypedEvent | go/controller/events.go:100-114 | Data lines alone make one event of type "message", each value being all that follows the colon and one space. |
| EventHub.LogFilter | go/agent/events.go:51-66 | A log line passes iff its level is at or above the level asked for, or unknown; without a level all pass, without the topic none. |
| EventHub.OtherFramesAreWanted | go/agent/events.go:51-54 | Every frame that is no log line is wanted, whatever the level. |
| EventHub.Severities | go/agent/events.go:58-66 | error is 3, warning 2, info 1, debug 0, and any other level 3. |
| EventHub.OfferExactly | go/agent/events.go:90-103 | A subscriber is left alone for a log line below its level or without logs; else the frame is queued behind at most 63 others, or the subscriber is done. |
| EventHub.DropExactly | go/agent/events.go:106-114 | Only the device's subscribers become done. |
| EventHub.Hub.Broadcast | go/agent/events.go:90-103 | Every subscriber is offered the frame: queued while there is room, dropped when its buffer is full, untouched when it does not want it. |
| EventHub.Hub.DropDevice | go/agent/events.go:106-114 | Every subscriber of the device is done, every other one unchanged. |
| Delivery.HubDelivery | go/agent/events.go:76-103 | In every run: taken plus queued frames are an in-order subsequence of the wanted broadcasts since the subscription, all of them unless disconnected; never more than 64 queued. |
| Delivery.DisconnectedExactly | go/agent/events.go:90-114 | In every run a stream is marked done iff, while it was registered, a wanted frame met its full buffer or an unpair request of its own device came to dropDevice. |
| Delivery.EndToEnd | go/agent/events.go:210-247 | In every run and for every cut of the connection, inside a failing write too: the traffic events the controller delivered are an unbroken prefix of the stream's ticks, the others the initial status followed by an unbroken prefix of the frames taken for it; both complete when nothing was cut. |
| Delivery.RunSamplesTicks | go/agent/events.go:238-245 | In every run the traffic frames on the wire are those of the stream's ticks, in order. |
| StreamEnding.WantedExactly | go/agent/events.go:51-66 | For every subscription a log line is passed on iff the logs topic was asked for and the line is at or above the level asked for, or no or an unknown level is in play; every other frame always. |
| StreamEnding.PublishedFramesArrive | go/agent/events.go:51-103 | In every run a stream still subscribed has taken or queued the frames published since its subscription that it asked for, in order and once, all of them unless it was disconnected. |
| Delivery.RunKeepsFaithful | go/agent/events.go:222-246 | Every step keeps queue, wire and broadcasts in agreement. |
| Pairings.EntriesTellTheHistory | go/pairing/store.go:59-117 | After any history, a device has an entry iff it was paired and not revoked since; the entry shows that pairing and whether it was confirmed after it. |
| Pairings.AuthenticationFollowsTheHistory | go/pairing/store.go:80-90 | A token authenticates as a device iff the pairing in force for the device issued it. |
| Pairings.HistoriesKeepHashesDistinct | go/pairing/store.go:63-68 | Every key is its entry's device and no two entries share a hash, so iteration order is immaterial. |
| Pairings.ChangesAreLocal | go/pairing/store.go:59-117 | Pair, Revoke and Confirm of one device leave the answer to every other device's token alone. |
| Pairings.LoadRebuildsTheMap | go/pairing/store.go:36-55 | A list of the entries in any order loads to the same map. |
| Store.Store.Open | go/pairing/store.go:36-55 | The loop rebuilds the entries, a later entry replacing an earlier one of the same device; file and memory agree. |
| Store.Store.Pair | go/pairing/store.go:59-76 | A new unconfirmed entry replaces the device's own; the token is handed out iff the file was written; with a new token no two entries share a hash. |
| Store.Store.Authenticate | go/pairing/store.go:80-90 | Whatever the iteration order: no answer iff no entry has the token's hash, else an entry that has it. |
| Store.Store.Revoke | go/pairing/store.go:93-102 | Removes the device's entry and no other; nothing is written when there was none; after a written removal the file loads to what is in memory, whatever it held before. |
| Store.Store.Confirm | go/pairing/store.go:105-117 | Marks the device confirmed, or reports an unknown device and changes nothing. |
| Store.Store.List | go/pairing/store.go:120-128 | Every entry once, in some order. |
| Store.Store.Persist | go/pairing/store.go:130-149 | On success disk and memory agree; on failure the old file stays. |
| StoreRuns.StoreReplaysItsCalls | go/pairing/store.go:36-149 | After any calls, failed writes and restarts: memory is the replay of the changes it remembers, and the file loads to the replay of those in memory at the last successful write. |
| StoreRuns.ReopenedStoreAccepts | go/pairing/store.go:36-90 | Then a store opened on the file accepts a token for a device iff the pairing in force at that write issued it. |
| StoreRuns.RunningStoreAccepts | go/pairing/store.go:80-90 | The running store accepts it iff the pairing in force among the remembered changes issued it. |
| StoreRuns.FileIsSound | go/pairing/store.go:130-149 | The file always holds a store with its keys in order and no hash twice. |
| StoreRuns.FileIsInSync | go/pairing/store.go:130-149 | While no write fails, a restart changes nothing. |
| StoreRuns.DeadAcrossRestarts | go/pairing/store.go:80-102 | While no write fails, a token that stopped being accepted never is again, restarts included. |
| StoreRuns.DeadTokenComesBack | go/pairing/store.go:93-102 | A revocation that could not be written: the token is dead, and accepted again after a restart. |
| Pins.Pad6 | go/agent/pin.go:77-84 | The countdown loop over the byte array writes the six decimal digits. |
| Pins.SixDigitsReadBack | go/agent/pin.go:77-84 | The digits read back as the number below a million. |
| Pins.PINManager.Verify | go/agent/pin.go:59-75 | Answer and new state for every state, guess and time. |
| Pins.AcceptedExactly | go/agent/pin.go:59-75 | In every run with a clock that never goes back, a guess is accepted iff it is the first to show the latest PIN, within maxAttempts guesses of its making and not past its expiry. |
| Pins.RateLimitedExactly | go/agent/pin.go:66-68 | A guess is rate-limited iff maxAttempts guesses have missed a PIN still in time. |
| Pins.ComparisonsAreLimited | go/agent/pin.go:66-69 | Whatever the clock does, at most maxAttempts guesses are compared with a PIN. |
| Pins.AcceptedPinsWereGenerated | go/agent/pin.go:31-75 | Whatever the clock does: accepted guesses plus the active PIN never exceed the PINs made. |
| Capabilities.DetectRemoteCaps | go/agent/control.go:43-51 | The advertised names in table order. |
| Capabilities.DetectedExactly | go/agent/control.go:17-51 | A name is advertised iff the hooks implement its interface and it is not disabled. |
| HandlerLaws.AdvertisedInOrder | go/agent/control.go:17-51 | What is advertised are the fourteen names of PROTOCOL.md section 8.3 whose interface is implemented and that are not disabled, each once and in that order. |
| Capabilities.TablesAgree | go/agent/control.go:17-81 | A route is gated by the capability of exactly the interface its handler asserts. |
| Capabilities.AssertionsSucceed | go/agent/control.go:89-97 | Behind an advertised capability no type assertion on Hooks fails, for any hooks and disabled list. |
| Capabilities.ImplementedIsAdvertised | go/agent/control.go:42-51 | What is implemented and not disabled is advertised. |
| Capabilities.CallsAreWellShaped | go/agent/control.go:125-512 | Hooks see only documented values: delay timeout 100..30000, log limit 1..1000 and a known level, a known mode and kind, required names, a setting value fitting the listed type and options, a listed action. |
| Capabilities.WellShapedCallsAreServed | go/agent/control.go:125-512 | And no documented value is refused: each such call is made for some request. |
| HandlerLaws.ChangesExactly | go/agent/control.go:138-512 | A hook call that changes something is made iff the request went to that call's own handler, the call carries the request's fields (timeout 5000 for 0), and these are documented values. |
| HandlerLaws.ChangeComesLast | go/agent/control.go:138-512 | A request causes at most two calls: one that reads, then the change. |
| HandlerLaws.ReadsExactly | go/agent/control.go:427-512 | A POST handler reads only the settings or actions its request is checked against. |
| HandlerLaws.ListingMakesOneCall | go/agent/control.go:125-498 | A listing handler makes its one call, whatever the request. |
| HandlerLaws.LogsExactly | go/agent/control.go:389-405 | Logs are asked for with no level or one of the four, and 100 lines or a limit from 1 to 1000; anything else is refused. |
| Resumption.ReachableExactly | go/pairing/store.go:36-55 | A state without requests, streams and PIN is reachable iff every entry holds a token issued to its own device. |
| Resumption.SavedStoreIsReachable | go/pairing/store.go:36-55 | So an agent opened on any saved store with its keys in order and no hash twice is in a state some run reaches. |
| Gateway.TokenMeansDevice | go/pairing/store.go:80-90 | In every reachable state a live token selects the entry of the one device it was issued to. |
| Gateway.RunKeepsTokensBound | go/agent/agent.go:119-139 | Entries, requests and streams always belong to the device their token was issued to. |
| RunHistory.RunReplaysItsHistory | go/pairing/store.go:59-117 | In every interleaving the store is the replay of the changes made, with fresh tokens. |
| RunHistory.LatestPairingDecides | go/pairing/store.go:80-90 | In every interleaving a token authenticates as a device iff the device's latest pairing or revocation is the pairing that issued it. |
| Revocation.LiveAfterStep | go/pairing/store.go:59-117 | Exactly when a token authenticates after a step: just issued, or live before and its own device neither revoked, unpaired nor paired again; other devices' steps never matter. |
| Revocation.DeadStaysDead | go/pairing/store.go:80-102 | Within one process, written or not, a token that once stopped authenticating never does again. |
| Revocation.EndedForGood | go/pairing/store.go:59-102 | After a revocation or re-pairing all tokens the device held until then are dead for the rest of the run. |
| Revocation.UnpairEndsItsToken | go/agent/agent.go:182-189 | An unpair request ends its own token even if the device was paired again in between or the write fails. |
| Revocation.HeartbeatSilencesDeadStream | go/agent/events.go:231-237 | From the first heartbeat after its token died a stream is stopped and writes nothing more. |
| StreamEnding.StoppedExactly | go/agent/events.go:222-246 | In every run a stream has returned iff its loop saw done, its client went, a heartbeat found its token dead, or a write failed. |
| StreamEnding.EndedStreamIsSilent | go/agent/events.go:222-246 | From any of these steps on it writes nothing; by the first three not at that step either. |
| StreamEnding.SeenDoneMeansDisconnected | go/agent/events.go:225-226 | The loop sees done only after the hub disconnected the stream. |
| StreamEnding.RegisteredUntilStopped | go/agent/events.go:193-194 | A stream stays in the hub until it has returned. |
| StreamEnding.TicksNeedTraffic | go/agent/events.go:213-219 | Traffic is sampled only for a stream that asked for it, by hooks that report it, unless it is disabled. |
| StreamEnding.HandledOnce | go/agent/agent.go:119-139 | No request is served, unpaired or subscribed twice. |
| StreamClosing.DeadStreamIsOpenExactly | go/agent/agent.go:182-189 | In every run a registered stream with a dead token is not marked done iff it did not fall behind, no other unpair request of its device dropped it, and its token was ended otherwise than by an unpair request, or by one whose write failed, which has not come to dropDevice, or which came to it before the stream subscribed. |
| StreamClosing.WhatEndedIt | go/pairing/store.go:59-102 | The step that ended a token revoked, unpaired or paired again its own device. |
| StreamClosing.DropFollowsRevoke | go/agent/agent.go:182-189 | An unpair request comes to dropDevice only after its own revocation, and only if that was written. |
| StreamClosing.DeadStreamWritesExactly | go/agent/events.go:222-246 | With its token dead a stream puts one item on the wire at a step iff that writes the initial status, a queued frame, a traffic tick, or the ping of a heartbeat whose token check came before. |
| StreamClosing.DeadStreamPingsAtMostOnce | go/agent/events.go:231-237 | A ping written with a dead token was checked while the token was live and nothing was written in between, so there is at most one, before any frame. |
| StreamClosing.DeadStreamWritesUntilHeartbeat | go/agent/events.go:231-234 | After its first heartbeat with a dead token nothing is written. |
| Scenarios.PingAfterRevocation | go/agent/events.go:231-237 | A run: the token is revoked between a heartbeat's check and its ping, which goes out. |
| Scenarios.LateSubscriberIsNotClosed | go/agent/events.go:199-209 | A run: the events request subscribes after the unpair request has run; the stream is not marked done and writes two frames with a dead token. |
| Scenarios.DroppedStreamWritesNewFrame | go/agent/events.go:90-103 | A run: a frame published after dropDevice is queued for a stream marked done and written. |
| Scenarios.RevokedStreamIsDroppedByAnother | go/agent/agent.go:182-189 | A run: a revocation at the agent ended the token, and an unpair request that was already let in marks the stream done. |
| Admission.LetInAtOnce | go/agent/agent.go:119-139 | A request is let in at once iff its token is live and the device is confirmed, confirmation is off, or it only unpairs; otherwise a live token waits for the confirmer and any other is unauthorized. |
| Admission.OnlyLetInGetPast | go/agent/agent.go:119-147 | In every run, whatever the endpoint: past the wrapper only after the token authenticated and, where required, the entry was confirmed or that same request got an answer that counts as a yes; a missing Confirmer counts as a yes. |
| Admission.HookCallsAreGuarded | go/agent/control.go:89-97 | Every hook call behind a capability was let in as above, its capability is advertised, its interface implemented and its arguments well shaped. |
| Admission.ConfirmedOncePerPairing | go/agent/agent.go:129-147 | In every interleaving, once a device is confirmed no later request of its waits for the confirmer until it is paired again. |
| Admission.AskedAgainOnlyForAReason | go/agent/agent.go:141-147 | In sequential runs, after an answer about a device that counts as a yes, or its confirmation, the next question about it, by the auth wrapper or for a PIN pairing, comes after it was paired again, or is for a PIN pairing whose own right guess came in between. |
| Scenarios.PinFlowAsksAgain | go/agent/agent.go:270-273 | A run: a confirmed device that guesses the PIN is asked about again without a new pairing. |
| Admission.TokensAreEarned | go/agent/agent.go:249-282 | Every token of `/v1/pair` follows the right PIN and then an answer that counts as a yes in the same request, for the device that guessed; a missing Confirmer counts as a yes. |
| Consent.TokensNeedAYesExactly | go/agent/agent.go:270-274 | In every run each token of `/v1/pair` follows a yes to its own request, iff there is a Confirmer or maxAttempts allows no guess. |
| Consent.TokenWithoutAYes | go/agent/agent.go:270-274 | A run for every agent without a Confirmer: the right PIN gets a token against a no. |
| Consent.PairingStepsInOrder | go/agent/agent.go:270-281 | In every run a PIN pairing is answered, gets its token and is confirmed in this order, each at most once. |
| Consent.ConfirmingFollowsToken | go/agent/agent.go:275-280 | It is confirmed only after its token was issued and the file written. |
| Consent.PassingNeedsAYesExactly | go/agent/agent.go:131-147 | In every run each request with an unconfirmed entry that needs a confirmed one and is past the wrapper was answered yes, iff there is a Confirmer or no confirmation is asked for. |
| Consent.PassedWithoutAYes | go/agent/agent.go:131-147 | A run for every agent that asks for confirmation and has no Confirmer: a device is let in against a no and marked confirmed. |
| Consent.ConfirmedSincePaired | go/pairing/store.go:59-117 | In every run a confirmed entry was confirmed after the pairing the device still has was made. |
| Consent.LetInMeansConfirmedSince | go/agent/agent.go:119-139 | So a request that came with a confirmed entry is of a device that was confirmed between the pairing in force at its arrival and that arrival. |
| Scenarios.OldYesConfirmsNewPairing | go/agent/agent.go:141-147 | A run: a yes to a request of the old pairing confirms the new one, whose token is let in at once. |
| PinRuns.PinFollowsItsCalls | go/agent/pin.go:31-75 | In every run the PIN is that of a manager that saw only the generated and guessed PINs. |
| PinRuns.TokensAnswerTheLatestPin | go/agent/agent.go:262-275 | With a clock that never goes back, every token of `/v1/pair` answers the latest PIN: its request was the first to show it, in time and within maxAttempts guesses. |
| Admission.PinsAreConserved | go/agent/agent.go:262-280 | In every run: tokens minted, pairings under way and the PIN on show are together at most the PINs made. |
| Agent.Agent.Confirm | go/agent/agent.go:141-147 | True iff the confirmer agrees or is missing; only then is the device confirmed. |
| Agent.Agent.AuthWith | go/agent/agent.go:119-139 | Who passes, who is unauthorized, who is forbidden, and the store after it, for every request. |
| Agent.Agent.HandleUnpair | go/agent/agent.go:182-189 | The device is revoked; its subscribers are dropped unless the write failed. |
| Agent.Agent.HandlePair | go/agent/agent.go:249-282 | Reply, PIN state and store for every request, in the source's order of checks, each reply by its exact condition. |
| Agent.PairRepliesExactly | go/agent/agent.go:249-282 | Each of the six replies iff its condition on the device, the active PIN, its expiry and attempts, the answer and the write; what is left of the PIN; and the one entry that changes, confirmed iff the token is handed out. |
| Agent.PassageExactly | go/agent/agent.go:119-147 | Unauthorized iff no entry has the token's hash, forbidden iff that entry had to be confirmed and a confirmer said no, else passed; the one entry that may become confirmed. |
| Agent.AuthIsGatewaySteps | go/agent/agent.go:119-147 | Alone, the wrapper admits, refuses and changes the store as the state machine does. |
| Agent.PairIsGatewaySteps | go/agent/agent.go:249-282 | So does PIN pairing, for PIN, store and issued tokens. |
| Percent.EncodeComponent | go/pairing/payload.go:121-134 | The loop writes each byte plain or as an uppercase triplet. |
| Percent.DecodeComponent | go/pairing/payload.go:136-156 | The advancing index decodes every triplet, or reports a truncated or invalid one. |
| Percent.EncodedByCharacters | go/pairing/payload.go:117-161 | Letters, digits, '-', '.', '_' and '~' stay; any other byte is '%' and two uppercase digits. |
| Percent.EncodedInOrder | go/pairing/payload.go:121-134 | Byte by byte, in order. |
| Percent.DecodedByCharacters | go/pairing/payload.go:136-173 | '%' and two digits of either case are one byte, '%' without them an error, any other byte itself. |
| Percent.DecodeEncodedComponent | go/pairing/payload.go:119-156 | Decoding undoes encoding on every byte string (sections 2.1 and 2.3 of RFC 3986). |
| Percent.EncodedComponentIsSafe | go/pairing/payload.go:158-161 | An encoded value holds only unreserved characters and '%'. |
| Percent.ScanIntExactly | go/pairing/payload.go:66-69 | A text is scanned as a number iff it is blanks without a newline, an optional sign, digits of that value within 64 bits, and anything that does not go on with a digit. |
| Percent.ScanPrintedInt | go/pairing/payload.go:40-69 | A port printed with %d is scanned back, for every 64-bit int. |
| PairingUri.Encode | go/pairing/payload.go:28-50 | An error iff a required field is missing, else the URI with the five parameters in canonical order. |
| PairingUri.Decode | go/pairing/payload.go:55-95 | Every outcome of the parser with its error, for every input; refused for its scheme iff the text does not start with it. |
| UriWording.UriByCharacters | go/pairing/payload.go:36-49 | The scheme, host, colon, port and question mark, then id, name, app, fp and token with their encoded values, in that order. |
| UriWording.HostByCharacters | go/pairing/payload.go:32-35 | A host with a colon is bracketed unless it starts with a bracket. |
| UriWording.PortByCharacters | go/pairing/payload.go:40 | The port is a minus if negative and the decimal digits without leading zeros. |
| UriWording.Prefix | go/pairing/payload.go:57-60 | The scheme without which a text is refused, by its letters. |
| UriWording.AuthorityErrors | go/pairing/payload.go:62-69 | An unterminated bracket, a missing port and a bad port are each reported iff the authority has that fault, before any parameter. |
| UriWording.FirstBadValue | go/pairing/payload.go:71-76 | With a good authority the first value that does not decode is reported by its key. |
| UriWording.MissingFieldExactly | go/pairing/payload.go:91-94 | With good values too it is refused iff id, fp or token has no or an empty last value. |
| PairingUriLaws.RoundTripExactly | go/pairing/payload.go:28-95 | A complete payload survives Encode and Decode iff its host has no '?' and does not start with '['. |
| PairingUriLaws.BracketedHostFails | go/pairing/payload.go:33-35 | The host "[a]" does not survive. |
| PairingUriLaws.AnyPortText | go/pairing/payload.go:62-69 | Any text without delimiters that scans to the port will do for it. |
| PairingUriLaws.OddPortExamples | go/pairing/payload.go:66-69 | The ports "-1" and "1x" are accepted. |
| PairingUriLaws.ParametersInAnyOrder | go/pairing/payload.go:70-90 | Parameter lists with the same known parameters in any order, unknown ones anywhere, give the same payload or the same rejection. |
| PairingUriLaws.ApplyTakesLastValues | go/pairing/payload.go:71-89 | Parameters are accepted iff all values decode; a repeated key counts with its last value. |
| PairingUriLaws.BadValueIsRefused | go/pairing/payload.go:73-76 | One badly encoded value anywhere refuses the URI. |
| PairingUriLaws.AcceptedPayload | go/pairing/payload.go:55-95 | An accepted payload has the non-zero port that its port text scans to and non-empty id, fp and token; its host is empty iff the authority has nothing before the port. |
| PairingUriLaws.EmptyHostExample | go/pairing/payload.go:52-66 | A URI without a host that is accepted. |
| Whitelist.WhitelistIsExact | go/forwarder/forwarder.go:29-158 | For paths of any bytes: a call is allowed iff its path, without outer slashes, spells a rule for its method with every {} a non-empty slash-free segment; read-only mode is exactly the GET part. |
| WhitelistTable.ForwardedExactly | go/forwarder/forwarder.go:29-53 | A call is allowed iff its method and path segments are a row of the table, written part by part, with any non-empty segment for {}. |
| Whitelist.SegMatchIsInstance | go/forwarder/forwarder.go:134-150 | Segments match iff they are the pattern with its wildcards filled in. |
| Whitelist.TrimStripsOuterSlashes | go/forwarder/forwarder.go:152-158 | All outer slashes and nothing else are stripped. |
| Whitelist.ForwardedWrites | go/forwarder/forwarder.go:25-53 | A forwarded call that is not a GET is a PUT or DELETE below proxies, providers or connections, so never a write to /configs. |
| Splitting.SplitJoin | go/forwarder/forwarder.go:157 | Splitting undoes joining of separator-free parts. |
| Splitting.JoinSplit | go/forwarder/forwarder.go:157 | Joining undoes splitting, and no part holds the separator. |
| ProxyGroups.List | go/corehooks/corehooks.go:110-152 | For every iteration order of the map, the visible groups of GLOBAL's order and then the sorted rest, each with its nodes in member order. |
| ProxyGroups.CollectUnlisted | go/corehooks/corehooks.go:121-127 | Any iteration order gathers each group GLOBAL does not list once. |
| ProxyGroups.EveryVisibleGroupIsListed | go/corehooks/corehooks.go:109-152 | A name is listed iff it is a visible group; GLOBAL's come first, then the others. |
| ProxyGroups.GroupsAreShown | go/corehooks/corehooks.go:97-151 | Every group shown is not hidden and has the answer's type, now and fixed, is selectable iff of the three types, and lists its members in order, each with its type and last measured delay, 0 for none. |
| ProxyGroups.OrderByNames | go/corehooks/corehooks.go:116-129 | The order is GLOBAL's members, GLOBAL, and the groups it does not list, sorted. |
| ProxyGroups.ListedOnceExactly | go/corehooks/corehooks.go:117-135 | No group is listed twice iff GLOBAL's own order repeats no visible group. |
| ProxyGroups.PlainGlobalListsOnce | go/corehooks/corehooks.go:117-135 | In particular when GLOBAL's members are distinct and do not name GLOBAL. |
| ProxyGroups.RepeatedMemberIsListedTwice | go/corehooks/corehooks.go:118-135 | A member GLOBAL names twice is listed twice. |

## Left out

- TLS, certificates, fingerprints, the HTTP server and client, the reverse proxy: library behaviour and I/O.
- mDNS and its TXT codec (go/discovery): a smaller version of the pairing codec.
- `encoding/json` marshalling and the decoder's limits: the model starts from JSON trees and lists of entries; strings with invalid UTF-8 cannot reach the encoder, since the decoder replaces it.
- Concurrent `persist` calls: the lock is released before writing, so disk and memory are related for one call at a time.
- A `NewToken` that fails, and a crash between two steps of a handler.
- Wall-clock intervals of heartbeats and traffic ticks: they may happen at any time.
- Power, subscription, rename and status handlers, and the status read behind `Notify`: requests to them are admitted like any other, their hook calls are not modelled.
- Hook errors, response bodies and the trimming of log lines in the answer: nothing is promised about them beyond the status code.
- An agent without a PIN manager in `Gateway` (in `Agent` it answers that PIN pairing is not supported), and the parsing of the Authorization header and of the topics parameter.
- `Providers`, `TestDelay` and the other one-call corehooks methods: easier members of the same kind as `ProxyGroups`.
- go/controller/control.go, go/protocol and the vector generator: thin wrappers, constants and test data.
