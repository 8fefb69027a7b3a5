# A verified model of the event delivery and bridge protocols

A Dafny model of the parts of this repository whose correctness is a matter of order, crashes
and lost replies, and of the codecs and checks they stand on. `dafny verify dfyconfig.toml`
checks all of it.

| file | what it models |
|---|---|
| `Delivery.dfy` | the event delivery protocol as a state machine, and what holds of every run |
| `PendingList.dfy` | pages of a consumer group's pending list |
| `EventAdapter.dfy` | the adapter itself: a class over a Valkey state, every command able to fail before or after its effect |
| `StateKey.dfy`, `Utf8.dfy` | the percent-encoded keys of the durable state |
| `Glob.dfy` | shell patterns compiled to regular expressions |
| `Resp.dfy` | the RESP2 encoder and the incremental reader |
| `WebSocket.dfy` | WebSocket framing: cutting, unmasking, joining, answering |
| `PublishRange.dfy`, `MergeGate.dfy` | what is demanded of commits before a push and of a head before a merge |
| `Terminal.dfy`, `TerminalCells.dfy` | the terminal emulator that renders a slot's output; what its sequences do, cell by cell |
| `Json.dfy`, `JsonGrammar.dfy`, `Envelope.dfy`, `EnvelopeShapes.dfy` | JSON, canonical JSON, the grammar of JSON apart from its reader, the event envelope, and its shapes as regular expressions |
| `SlotRequests.dfy`, `SlotLink.dfy` | a slot's requests: the steps of the store, the ingester, and the slot's `rpc` |
| `Wakes.dfy`, `Waker.dfy` | wakes of the orchestrator's thread: the records, the server, and the waker |
| `SlotAdapter.dfy` | the slot adapter's loop |
| `Wrappers.dfy` | an optional value; bytes |

## How to read it

A protocol is a state, an `Action` for every atomic thing that can happen to it, and a predicate
`Enabled` that says what must be known before the program does it; whatever the outside world may do
is enabled at any time. Theorems are about every run of such steps. The program is a class: each of
its commands takes exactly one step, and to take it the class must prove `Enabled`, so every theorem
about runs holds of whatever its methods do, in any order, with any command lost before or after its
effect, and with the process replaced at any point. A method of the event adapter, the slot link,
the ingester or the waker that can fail says that it does so only when a command had no answer (the
counters `lost`), so that what it promises on success is what it does whenever nothing is lost. The
waker and the slot adapter also keep a record of the calls they made and of the answers; what a
method does is stated as the calls it adds. A codec is a printer, a reader over the whole text, and
a class that reads the same text in pieces.

## What is assumed

- One event adapter is live at a time; it may restart under another consumer name. Its policy is
  fixed. Streams are not trimmed, and positions count from where the group was created.
- A marker or a counter lapses only between the sections that hold the adapter's lock, and every
  theorem that needs them to last says so. The in-memory cache of acknowledgements is not assumed
  to expire together with the marker it stands for.
- Handling an entry fails only by a lost command or a failed delivery. An `ack` that threw halfway
  leaves the event in flight, and it may be pushed again; theorems about acknowledgement are about
  acks that returned.
- A command whose reply is lost has taken effect or not; it does not take effect later, except
  that a `turn/start` may be held by the app server and acted on at any later time.
- The functions of the bridge library are atomic steps, as their callers describe them
  (`plugin/mctl-bridge/src/ingest.ts:3`, `plugin/mctl-bridge/src/slotlink.ts:7`,
  `plugin/mctl-bridge/src/waker.ts:5`); a handler that raises has applied nothing; the memo of a
  request outlives its retries. One ingester and one waker run.
- A request id is always used for the same request, and by one call at a time. An attempt of a call
  waits long enough for at least one read of the answers.
- The app server truthfully reports turns, and a `turn/start` refused with an RPC error has started
  nothing.
- Git answers truthfully about the graph of commits, or its command fails; GitHub's answers are
  taken as they come.

## What came out

- The scrollback limit does not hold for `keep` zero: a slice up to minus zero is empty, so nothing
  is ever dropped (`plugin/mctl-bridge/ops/slot-pty.py:72`). The scrollback stays within `keep`
  under every text exactly when `keep` is not zero (`Terminal.ScrollbackLimited`); with zero it
  takes as many line feeds as there are rows (`Terminal.LineFeedsScroll`).
- A row of the terminal can become one cell longer than the screen: exactly by an erase to the
  cursor while the cursor is past the last column (`Terminal.WidthsStayExact`), and a full line and
  that erase do it on a fresh screen (`Terminal.OvergrowsFromFresh`).
- A parameter that passes for digits and is no number makes the terminal raise, and nothing else
  does (`Terminal.RaisesExactly`); a superscript two is one (`Terminal.SuperscriptRaises`). The
  screen stays well formed, but the rest of that chunk is not shown (`Terminal.Screen.Feed`).
- A refusal to publish can name a reason that is none: every exit code of `is-ancestor` but zero
  counts as "no", so that a command that was killed or ran into its time limit refuses a publishable
  range as `head_not_on_base` (`PublishRange.UnansweredAncestor`). It can happen exactly when that
  command did not answer (`PublishRange.CheckRange`); nothing is pushed that should not be.
- A cancelled run with a negative id would be dropped without a newer one, because the newest id
  starts from zero (`MergeGate.SupersededMeans`, `MergeGate.LoneNegativeDropped`). Ids are positive,
  and then it cannot happen.
- When some runs are pending and others have failed, which of the two refusals is given depends on
  the order in which GitHub lists the runs, and only then (`MergeGate.RefusalOfRuns`).
- Texts go on being dispatched from bytes that follow a close frame in the same chunk
  (`WebSocket.ReceivesWhatWasSent` covers them too); only pings after it are not answered.

## Model

| member | source | states |
|---|---|---|
| `Delivery.NoLoss` | plugin/mctl-events/src/channel.ts:429-543 | In every run, with any command lost before or after its effect and any number of restarts: an entry the group has read is still pending, or its event was acknowledged or rejected at the limit, or it was an over-cap copy acknowledged while another copy of the event is still pending |
| `Delivery.KeepsInflightPending` | plugin/mctl-events/src/channel.ts:446-543 | Every step keeps the inner invariant: all entries of an unmarked in-flight event are pending for this consumer |
| `Delivery.MarkEarned` | plugin/mctl-events/src/channel.ts:394-396 | A dedup marker is written only after the session acknowledged the event or a counted attempt went over `max_attempts` |
| `Delivery.AcknowledgedCopyRemains` | plugin/mctl-events/src/channel.ts:491-502 | A copy acknowledged over the cap leaves another copy of the same event pending, at every later step, until the event is marked |
| `Delivery.StaysAcknowledged` | plugin/mctl-events/src/channel.ts:843-875 | After an `ack` that returned, the event is marked and out of flight at every later point of the run until its marker lapses |
| `Delivery.StaysRejected` | plugin/mctl-events/src/channel.ts:509-522 | After a rejection, the counter stays over the limit at every later point until it lapses |
| `Delivery.NoPushAfterDone` | plugin/mctl-events/src/channel.ts:475-522 | No push of an event, successful or not, follows its returned `ack` or its rejection in any run, unless the marker (or the counter) lapsed in between |
| `Delivery.AttemptsWithinLimit` | plugin/mctl-events/src/channel.ts:404-422 | Over any run the successful pushes of an event carry strictly increasing numbers in 1..`max_attempts`, so there are at most that many; the durable counter is exactly what was spent plus the attempt under way |
| `Delivery.OpenAfter` | plugin/mctl-events/src/channel.ts:404-422 | An attempt under way is opened by counting it and closed by giving it back or spending it, and by nothing else |
| `Delivery.FailedPushesAreFree` | plugin/mctl-events/src/channel.ts:509-541 | While nothing but pushes spent the budget, pushes are numbered 1, 2, 3 without a gap: a failed push whose refund worked costs nothing |
| `Delivery.OneHistory` | plugin/mctl-events/src/channel.ts:446-543 | The states of a run share one growing history, so a statement about the history is a statement about the whole run |
| `EventAdapter.Adapter.constructor` | plugin/mctl-events/src/channel.ts:236-262 | A first process over a freshly created group is at rest with an empty history |
| `EventAdapter.Adapter.BumpAttempt` | plugin/mctl-events/src/channel.ts:404-412 | A success means that no command was lost, returns the old counter plus one and leaves exactly that stored, nothing else changed; a failure leaves the counter of every other event alone |
| `EventAdapter.Adapter.DropAttempt` | plugin/mctl-events/src/channel.ts:415-422 | When the command is not lost the counter goes back by exactly one; when it is, it goes back or stays; nothing else changes |
| `EventAdapter.Adapter.CachedAck` | plugin/mctl-events/src/channel.ts:374-382 | A hit is exactly a remembered id whose time is not over; one whose time is over is forgotten, and nothing else changes |
| `EventAdapter.Adapter.WasAcked` | plugin/mctl-events/src/channel.ts:389-392 | When it answers, the answer is exactly "marked durably or remembered" |
| `EventAdapter.Adapter.MarkAcked` | plugin/mctl-events/src/channel.ts:394-396 | A success writes this marker and no other; a failure writes at most this marker |
| `EventAdapter.Adapter.AcknowledgeAcked` | plugin/mctl-events/src/channel.ts:429-444 | A redelivery of a finished event is acknowledged with everything still tracked for it, and the event leaves flight even when an XACK fails |
| `EventAdapter.Adapter.Handle` | plugin/mctl-events/src/channel.ts:446-543 | When no command is lost the effect is one of exactly eight: malformed or unrouted acknowledged; finished event acknowledged with its entries; duplicate left, added, or acknowledged over the cap; marked and acknowledged over the limit; counted, taken in flight and pushed with that count; or that push failed, on record, the entry left pending and the counter exactly as it was |
| `EventAdapter.Adapter.HandleDuplicate` | plugin/mctl-events/src/channel.ts:485-506 | An entry of an event in flight is joined to it, left if already there, or acknowledged when 16 are tracked; never pushed |
| `EventAdapter.Adapter.RejectNew` | plugin/mctl-events/src/channel.ts:510-522 | Over the limit: marker before XACK, never pushed; a failure in between leaves the entry pending or the event marked |
| `EventAdapter.Adapter.PushCounted` | plugin/mctl-events/src/channel.ts:523-541 | A push that reaches the session leaves the event in flight with this attempt; one that does not is on record as a failed push, releases the slot and, when no command is lost, gives back exactly this attempt |
| `EventAdapter.Adapter.PushNew` | plugin/mctl-events/src/channel.ts:507-541 | A new event is counted durably before it is pushed; when no command is lost, a push that failed leaves the counter as it was |
| `EventAdapter.Adapter.OfferCounted` | plugin/mctl-events/src/channel.ts:510-541 | The counted event is rejected over the limit, otherwise pushed under its count; when no command is lost, a push that failed leaves the counter as it was before it was counted |
| `EventAdapter.Adapter.Ack` | plugin/mctl-events/src/channel.ts:843-875 | `unknown` exactly when the id is not in flight, and then nothing changed; `acknowledged` means marked, every tracked entry acknowledged, out of flight; a failure means a command had no answer, and leaves the event in flight for a retry |
| `EventAdapter.Adapter.MarkAndXack` | plugin/mctl-events/src/channel.ts:853-859 | The marker is durable before the first entry is acknowledged |
| `EventAdapter.Adapter.Remember` | plugin/mctl-events/src/channel.ts:861-864 | The event is remembered until the dedup time from now is over; the cache stays within its bound, keeps the times of the others, and drops one only when it is full |
| `EventAdapter.Adapter.RedeliverStale` | plugin/mctl-events/src/channel.ts:714-752 | When no command is lost, every event idle for long enough was offered in this sweep: a push under its next number is on record since the sweep began, successful or failed, or its rejection, and an event whose push failed has the counter it had; all other events are as they were |
| `EventAdapter.Adapter.RedeliverOne` | plugin/mctl-events/src/channel.ts:720-748 | When it succeeds the event was pushed anew under the next number, or rejected when that is over the limit, or the new push failed and the item stays as it was, and its counter too when no command was lost; it fails only when a command had no answer; no other event is touched |
| `EventAdapter.Adapter.RejectInflight` | plugin/mctl-events/src/channel.ts:723-733 | Marked, all entries acknowledged and dropped; on a failure still in flight |
| `EventAdapter.Adapter.ReadOnce` | plugin/mctl-events/src/channel.ts:571-608 | In-flight events stay within streams times `max_inflight` (within `max_inflight` for one stream); with room, and no command lost, every stream is read onward by what it held, up to the room left; without room nothing is read; and unless the adapter is stopped every entry newly read is then acknowledged, tracked, or its event's push failed |
| `EventAdapter.Adapter.ReadNew` | plugin/mctl-events/src/channel.ts:571-608 | The read takes exactly the next entries of each stream, the count applying per stream |
| `EventAdapter.Adapter.TakeEach` | plugin/mctl-events/src/channel.ts:571-608 | The entries taken are the next ones of each stream in order, they are now pending here, and nothing else was read |
| `EventAdapter.Adapter.AbandonedEntries` | plugin/mctl-events/src/channel.ts:615-633 | The result is the first `limit` foreign-owned rows among the first `PENDING_PAGES * PENDING_BATCH` rows of an unchanging pending list, or a command had no answer |
| `EventAdapter.ScannedOn` | plugin/mctl-events/src/channel.ts:615-633 | After one page more, either the result is that of the whole window, or the page was full and the rows behind its last one are what is left to look at |
| `EventAdapter.Adapter.ScanPage` | plugin/mctl-events/src/channel.ts:615-633 | One page adds its foreign rows in order, up to the limit |
| `EventAdapter.Adapter.RecoverPending` | plugin/mctl-events/src/channel.ts:641-669 | Terminates; what it hands over is, on record, only this consumer's pending entries, each at most once and in increasing order per stream; when no command is lost and it is not told to stop, it ends with every entry still pending for this consumer tracked, but for those whose push failed in this pass, and with none left over when no push failed |
| `EventAdapter.RoundEnds` | plugin/mctl-events/src/channel.ts:641-669 | A whole round keeps what a recovery promises so far, moves the cursors past its page, and leaves strictly less to do |
| `EventAdapter.Adapter.ReclaimFrom` | plugin/mctl-events/src/channel.ts:675-707 | What is taken over of a stream is among its abandoned entries; when there are any and no command is lost, a claim of exactly these is on record, and each of them is handled or its push failed |
| `EventAdapter.Adapter.Reclaim` | plugin/mctl-events/src/channel.ts:675-707 | Starting within `max_inflight`, in-flight events stay within it; when no command is lost, it is not told to stop and room is left, every stream was looked at, and of each that had abandoned entries then, some of the oldest of them were claimed since: those the server still gave away; whatever is taken over was pending on another consumer when the pass began and is handled at the end, or its push failed in this pass |
| `EventAdapter.Adapter.Dispatch` | plugin/mctl-events/src/channel.ts:754-780 | The entry is handled, or a push of its event has failed since and it stays pending, which is no error, with the counter of its event as it was when no command was lost, unless it lapsed; the call fails only when a command had no answer; everything already handled stays handled |
| `EventAdapter.Adapter.DispatchAll` | plugin/mctl-events/src/channel.ts:754-780 | The entries are handed over in order, all of them unless a command had no answer; every one handed over is handled, or is one of those for which a push of the event failed since |
| `EventAdapter.NoneInVain` | plugin/mctl-events/src/channel.ts:754-780 | While no push fails, no entry is left undelivered |
| `EventAdapter.Adapter.Restart` | plugin/mctl-events/src/channel.ts:782-807 | A process that died at any point of any section is replaced by one with empty memory, and every theorem of the protocol goes on to hold |
| `EventAdapter.Adapter.Live` | plugin/mctl-events/src/channel.ts:782-807 | Any number of whole sections of the adapter, in any order and with any faults, and any number of processes one after the other, keep the protocol's invariant; that a process may also die inside a section is `Restart`'s |
| `EventAdapter.RoundRecovers` | plugin/mctl-events/src/channel.ts:641-669 | Once a round of pages is empty, nothing of this consumer's pending list lies behind the cursors unhandled |
| `EventAdapter.RoundInOrder` | plugin/mctl-events/src/channel.ts:641-669 | Entries of a later page come after those dispatched before, per stream |
| `PendingList.OwnPageComplete` | plugin/mctl-events/src/channel.ts:641-669 | A page of the own pending list misses nothing before its last entry |
| `PendingList.RoundCovers` | plugin/mctl-events/src/channel.ts:641-669 | An entry past the cursors is on the page or past the advanced cursors |
| `PendingList.RoundShrinks` | plugin/mctl-events/src/channel.ts:641-669 | Every non-empty round leaves strictly less to visit, whatever the dispatches acknowledge meanwhile |
| `PendingList.RowsResume` | plugin/mctl-events/src/channel.ts:615-633 | Reading on after the last row of a page gives exactly the rest of the list |
| `PendingList.PageExtends` | plugin/mctl-events/src/channel.ts:615-633 | Pages read one after the other are one prefix of the pending list |
| `StateKey.KeyDetermines` | plugin/mctl-events/src/channel.ts:369-371 | Equal state keys have equal prefix, group and event id, whatever characters those hold |
| `StateKey.QuotesBytes` | plugin/mctl-events/src/util.ts:26-28 | Encoding as two passes (what `encodeURIComponent` keeps, then its five marks) equals percent-encoding the UTF-8 bytes outside `A-Za-z0-9-_.~` one by one |
| `StateKey.UnreservedAre` | plugin/mctl-events/src/util.ts:26-28 | The characters left alone are the letters, the digits and `-._~`, by their codes, and five marks more in the first pass |
| `StateKey.UnquotesQuoted` | plugin/mctl-events/src/util.ts:26-28 | Percent-decoding an encoded text gives its UTF-8 bytes back |
| `Utf8.EncodeAllInjective` | plugin/mctl-events/src/util.ts:26-28 | Different texts have different UTF-8 bytes |
| `Utf8.EncodeShape` | plugin/mctl-events/src/util.ts:26-28 | As many bytes as the code point needs, the first of which tells how many, and continuations |
| `Glob.Matcher.Fnmatchcase` | plugin/mctl-events/src/fnmatch.ts:8-16 | The answer is exactly whether the pattern means the name, with or without a cached expression |
| `Glob.Translate` | plugin/mctl-events/src/fnmatch.ts:29-86 | The text written is the printed form of the pattern's tokens |
| `Glob.WriteSet` | plugin/mctl-events/src/fnmatch.ts:62-80 | A set's text is the printed class, or `(?!)` and `.` for an empty and an empty negated one |
| `Glob.WriteParts` | plugin/mctl-events/src/fnmatch.ts:62-74 | Reversed ranges are dropped and every other part is written escaped, in order |
| `Glob.FindClose` | plugin/mctl-events/src/fnmatch.ts:43-46 | The end of a set is the first `]` that is not its first character |
| `Glob.SkipStars` | plugin/mctl-events/src/fnmatch.ts:36-39 | A run of stars is skipped to its end |
| `Glob.CompilesFaithfully` | plugin/mctl-events/src/fnmatch.ts:29-86 | For every pattern and string: the compiled expression, read back from its own text, accepts the string exactly when the pattern matches it by the direct recursive definition |
| `Glob.ReadsBack` | plugin/mctl-events/src/fnmatch.ts:18-27 | Every expression that can be written reads back, escapes included, as the same expression |
| `Glob.TokensMean` | plugin/mctl-events/src/fnmatch.ts:29-86 | The tokens of a pattern accept exactly what the pattern matches |
| `Glob.StarsCollapse` | plugin/mctl-events/src/fnmatch.ts:36-39 | Collapsing consecutive stars does not change what is matched |
| `Glob.PartsMean` | plugin/mctl-events/src/fnmatch.ts:62-74 | The parts kept of a set hold exactly its members; reversed ranges held none |
| `Resp.Encode` | plugin/mctl-events/src/valkey.ts:71-82 | The bytes are the printed array of the arguments as bulk strings; an argument that is no finite number or text is an error |
| `Resp.CommandReadsBack` | plugin/mctl-events/src/valkey.ts:71-82 | Reading an encoded command yields exactly its arguments, those over 64 KiB as `Oversized(n)`, and stops right behind it |
| `Resp.SampleCommand` | plugin/mctl-events/src/valkey.ts:71-82 | A command of two arguments, byte for byte |
| `Resp.Wire.FillBuffer` | plugin/mctl-events/src/valkey.ts:124-135 | One chunk is appended, or the connection is closed; no byte is lost |
| `Resp.Wire.ReadLine` | plugin/mctl-events/src/valkey.ts:137-143 | The line up to the first CR LF of all bytes to come, however they are cut into chunks |
| `Resp.Wire.ReadExact` | plugin/mctl-events/src/valkey.ts:145-150 | Exactly n bytes, and the two behind them dropped |
| `Resp.Wire.Skip` | plugin/mctl-events/src/valkey.ts:153-161 | n + 2 bytes are dropped, and nothing was held whenever more was read: never more than one chunk is buffered |
| `Resp.Wire.ReadReply` | plugin/mctl-events/src/valkey.ts:164-193 | The reply, and the bytes left unread, are those of one function of the whole byte stream, so they do not depend on chunking; while reading, less than 64 KiB + 2 bytes or an unfinished line is held |
| `Resp.Wire.ReadBulk` | plugin/mctl-events/src/valkey.ts:170-178 | A bulk string within the limit is returned, a longer one skipped and stood in for by its length |
| `Resp.Wire.ReadItems` | plugin/mctl-events/src/valkey.ts:179-189 | Array items are read in order, errors among them kept as text |
| `Resp.ReceivedAt` | plugin/mctl-events/src/valkey.ts:179-189 | Each item of an array is received as it would be alone, but an error as its text |
| `Resp.ReplyStands` | plugin/mctl-events/src/valkey.ts:164-193 | A reply that is complete or malformed is the same whatever bytes follow, and takes none of them |
| `Resp.ReadsPrinted` | plugin/mctl-events/src/valkey.ts:164-193 | Reading any printed reply gives what it says and leaves the stream exactly behind it, with oversized strings inside or not |
| `Resp.NegativeIsNull` | plugin/mctl-events/src/valkey.ts:170-181 | A negative length of a string or of an array, which is how a read that timed out is answered, is the null reply and takes its own line alone |
| `Resp.PrefixWaits` | plugin/mctl-events/src/valkey.ts:124-193 | Of a printed reply that is not there to its last byte nothing is taken, wherever it is cut |
| `Resp.BadLineRefused` | plugin/mctl-events/src/valkey.ts:164-198 | A line of no known kind, a length or an integer that is no number, and an empty line are refused |
| `Resp.DecimalReadsBack` | plugin/mctl-events/src/valkey.ts:195-198 | Every integer printed in decimal passes the integer check and reads back |
| `Resp.IntegersAre` | plugin/mctl-events/src/valkey.ts:195-198 | An integer is an optional minus sign and at least one digit, by their codes |
| `WebSocket.AppClient.Feed` | plugin/mctl-bridge/src/appserver.ts:90-128 | Feeding a chunk leaves the session and the held bytes that delivering every whole frame of the bytes so far gives |
| `WebSocket.AppClient.TakeFrame` | plugin/mctl-bridge/src/appserver.ts:92-116 | A frame is cut out exactly when it is whole; the payload of a masked one is unmasked (what masking is: `WebSocket.MaskedBits`) |
| `WebSocket.AppClient.Receive` | plugin/mctl-bridge/src/appserver.ts:117-126 | Pings are answered unless shut, a close shuts, text fragments are joined, other frames pass by |
| `WebSocket.AppClient.SendFrame` | plugin/mctl-bridge/src/appserver.ts:150-165 | What goes to the socket is one final frame, masked under some mask, in the shortest length form and carrying this data; nothing once shut |
| `WebSocket.ReceivesWhatWasSent` | plugin/mctl-bridge/src/appserver.ts:90-128 | Any messages in any fragmentation, any other frames in between, any length forms and masks, any chunking: each message is dispatched once, whole, in order, and the pings before a close are each answered with their payload |
| `WebSocket.ChunksDoNotMatter` | plugin/mctl-bridge/src/appserver.ts:90-91 | Any cutting of the same bytes leads to the same session and held bytes |
| `WebSocket.CutsWritten` | plugin/mctl-bridge/src/appserver.ts:92-116 | Every frame in each of the three length forms, masked or not, is cut out as it was sent |
| `WebSocket.FeedInvertsFrame` | plugin/mctl-bridge/src/appserver.ts:150-165 | A frame the client writes reads back as the payload it was given, for every mask and every length under 2^64 |
| `WebSocket.ControlsPassBy` | plugin/mctl-bridge/src/appserver.ts:117-126 | Frames without text do not touch the messages, wherever they fall, a close included |
| `WebSocket.MaskedTwice` | plugin/mctl-bridge/src/appserver.ts:110-113 | Masking twice with one mask gives the data back |
| `WebSocket.MaskedBits` | plugin/mctl-bridge/src/appserver.ts:110-113 | Masked bytes are exactly those that differ from the data in the bits that are set in the mask, repeated every four bytes |
| `WebSocket.SampleMasked` | plugin/mctl-bridge/src/appserver.ts:150-165 | A short text as the client writes it, byte for byte: final text frame, mask bit and length, mask, masked payload |
| `WebSocket.SamplePlain` | plugin/mctl-bridge/src/appserver.ts:92-126 | The unmasked frames of section 5.7 of RFC 6455, byte for byte: whole and fragmented text, ping, pong |
| `WebSocket.SampleLengths` | plugin/mctl-bridge/src/appserver.ts:150-161 | Lengths of 256 and 65536 in the two longer forms, most significant byte first |
| `PublishRange.ParseRaw` | plugin/mctl-bridge/src/publish.ts:287-298 | The entries are those of the NUL-separated pairs, or unreadable when a pair is missing or malformed |
| `PublishRange.ParsesPrinted` | plugin/mctl-bridge/src/publish.ts:287-298 | Every listing git can print reads back entry by entry |
| `PublishRange.CheckRange` | plugin/mctl-bridge/src/publish.ts:394-414 | For truthful answers of git: what it lets through is publishable, and everything publishable goes through when every command answered; it gives up only when a command failed; a refusal names a fact of the graph if and only if `is-ancestor` answered or base is no ancestor; without that answer everything is refused as `head_not_on_base` |
| `PublishRange.UnansweredAncestor` | plugin/mctl-bridge/src/publish.ts:394 | A range that is publishable, its base an ancestor of its head, is refused as `head_not_on_base` when the `is-ancestor` command is killed or times out |
| `PublishRange.CheckTouched` | plugin/mctl-bridge/src/publish.ts:408-414 | Passes exactly when no entry is outside the allowed list, under the workflow directories, or a link or submodule |
| `PublishRange.AllowedMeans` | plugin/mctl-bridge/src/publish.ts:280-282 | An entry that ends in a slash allows exactly the paths below it, any other entry itself alone, and a list what one of its entries allows |
| `PublishRange.TouchedPaths` | plugin/mctl-bridge/src/publish.ts:406-407 | The union of what every commit of the range changes against its first parent |
| `PublishRange.ClaimMatches` | plugin/mctl-bridge/src/publish.ts:399-403 | The claimed files, repetitions dropped, equal the listed paths exactly when they are the paths that changed |
| `PublishRange.PublishedRange` | plugin/mctl-bridge/src/publish.ts:394-414 | What is pushed is exactly one chain of first parents from head to base; every commit on it agrees with base outside the allowed list, on workflow paths, and on links and submodules; the claimed files are the ones changed and all allowed |
| `PublishRange.RangeIsOneChain` | plugin/mctl-bridge/src/publish.ts:394-398 | Base an ancestor and no merge in the range make the range one parent chain |
| `PublishRange.ChainAgrees` | plugin/mctl-bridge/src/publish.ts:404-414 | Clean per-commit listings add up: no commit of the chain differs from base where it may not, reverted changes included |
| `PublishRange.RangeHasParents` | plugin/mctl-bridge/src/publish.ts:406-407 | Every commit of such a range has a first parent, so `c^` always resolves |
| `MergeGate.WithoutSuperseded` | plugin/mctl-bridge/src/publish.ts:524-532 | Keeps, in order, exactly the runs that are not superseded; unreadable exactly when a run has no id |
| `MergeGate.SupersededMeans` | plugin/mctl-bridge/src/publish.ts:524-532 | Superseded exactly when cancelled with a strictly newer run of the same key (or, for a negative id, even without one) |
| `MergeGate.LoneNegativeDropped` | plugin/mctl-bridge/src/publish.ts:524-532 | A cancelled run with a negative id is dropped with no newer run there |
| `MergeGate.RequiredChecks` | plugin/mctl-bridge/src/publish.ts:491-516 | The union of both places' names, read exactly when every shape is recognised |
| `MergeGate.LatestVerdicts` | plugin/mctl-bridge/src/publish.ts:541-547 | An author has a verdict exactly when some review of theirs counts, and it is the one with no counted review of theirs behind it; unreadable exactly when a counted review has no author |
| `MergeGate.LatestIsLast` | plugin/mctl-bridge/src/publish.ts:541-547 | The same of the verdict as a function of the reviews, by index |
| `MergeGate.Gate` | plugin/mctl-bridge/src/publish.ts:535-572 | Passes exactly when everything holds; a refusal names a fact; gives up only when an answer was missing or misshapen |
| `MergeGate.NoFailureHidden` | plugin/mctl-bridge/src/publish.ts:524-556 | After a pass every run that did not pass was cancelled and has a strictly newer run of its own app and name, and the newest run of every app and name passed |
| `MergeGate.RequiredPassed` | plugin/mctl-bridge/src/publish.ts:560-566 | After a pass every required name is that of a run that passed or a status that succeeded |
| `MergeGate.OrderDoesNotMatter` | plugin/mctl-bridge/src/publish.ts:524-556 | Whether the gate passes is the same for every order of the runs |
| `MergeGate.CheckRuns` | plugin/mctl-bridge/src/publish.ts:553-556 | The first run that did not pass decides; the runs pass exactly when each of them does |
| `MergeGate.RefusalOfRuns` | plugin/mctl-bridge/src/publish.ts:553-556 | Which refusal the runs give is the same in every order if and only if they are not both pending and failed |
| `Terminal.ShowsPlainText` | plugin/mctl-bridge/ops/slot-pty.py:70-114 | Any number of CR LF separated lines of at most `cols` narrow characters on a fresh screen: the lines shown are the last `keep + rows` of them, right-trimmed and blank-padded (all of them when `keep` is zero) |
| `Terminal.StepKeeps` | plugin/mctl-bridge/ops/slot-pty.py:93-159 | Every character in every state leaves a well-formed screen: exactly `rows` rows, cursor in range, rows `cols` or `cols + 1` wide, scrollback within `keep` when `keep` is positive, also when reading a parameter raises |
| `Terminal.FeedKeeps` | plugin/mctl-bridge/ops/slot-pty.py:93-122 | So does every text |
| `Terminal.WidthsStayExact` | plugin/mctl-bridge/ops/slot-pty.py:140-151 | Rows stay exactly `cols` wide after a character if and only if it is not an erase-to-cursor with the cursor past the last column |
| `Terminal.OvergrowsFromFresh` | plugin/mctl-bridge/ops/slot-pty.py:140-151 | On a fresh screen of any size, `cols` narrow characters and an erase to the cursor leave a row of `cols + 1` cells |
| `Terminal.TrimAppends` | plugin/mctl-bridge/ops/slot-pty.py:70-73 | Trimming after every line is trimming once at the end |
| `Terminal.ScrollbackLimited` | plugin/mctl-bridge/ops/slot-pty.py:70-73 | The scrollback stays within `keep` under every text if and only if `keep` is not zero |
| `Terminal.LineFeedsScroll` | plugin/mctl-bridge/ops/slot-pty.py:70-77 | `rows` line feeds on a fresh screen put one line into the scrollback, whatever `keep` is |
| `Terminal.Screen.Scroll` | plugin/mctl-bridge/ops/slot-pty.py:70-73 | The first row goes to the scrollback right-trimmed, a blank row comes in, the scrollback keeps its last `keep` |
| `Terminal.Screen.Lf` | plugin/mctl-bridge/ops/slot-pty.py:75-77 | Down one row, or scrolled on the last |
| `Terminal.Screen.PutChar` | plugin/mctl-bridge/ops/slot-pty.py:79-91 | Combining characters join the cell before; others wrap when they do not fit and are placed, two cells for a wide one |
| `Terminal.Screen.PlaceGlyph` | plugin/mctl-bridge/ops/slot-pty.py:86-90 | Only the cursor's row changes; a wide glyph cut in half leaves a blank |
| `Terminal.Screen.Control` | plugin/mctl-bridge/ops/slot-pty.py:124-159 | Cursor moves, erases, deletes as the sequence says; private ones change nothing; a raise changes nothing |
| `Terminal.Screen.Erase` | plugin/mctl-bridge/ops/slot-pty.py:140-151 | The cells from, to or around the cursor, and the rows below or above, are blank; all others are kept |
| `TerminalCells.ErasesCells` | plugin/mctl-bridge/ops/slot-pty.py:139-153 | `J` and `K` blank exactly the cells from, up to or around the cursor in reading order, `K` in the cursor's row alone, and change nothing else |
| `TerminalCells.ErasesNoOtherRow` | plugin/mctl-bridge/ops/slot-pty.py:139-153 | Rows an erase does not reach stay as they are, also one that is a cell too long |
| `TerminalCells.BlanksSpan` | plugin/mctl-bridge/ops/slot-pty.py:154-156 | `X` blanks as many cells from the cursor as asked, as far as the screen goes, and no other |
| `TerminalCells.DeletesCells` | plugin/mctl-bridge/ops/slot-pty.py:157-159 | `P` moves the cells behind the deleted ones up to the cursor and brings blanks in from the right; the row keeps its width |
| `TerminalCells.OthersChangeNothing` | plugin/mctl-bridge/ops/slot-pty.py:124-159 | No other final letter changes a cell, and none but a move anything at all |
| `TerminalCells.WritesCells` | plugin/mctl-bridge/ops/slot-pty.py:86-90 | Cell by cell: the glyph, its second half, a blank for the half of a glyph that was cut, and the rest as it was |
| `TerminalCells.PutsWhereThereIsRoom` | plugin/mctl-bridge/ops/slot-pty.py:83-91 | A glyph goes under the cursor when there is room for it, and otherwise to the beginning of the next line |
| `TerminalCells.CombinesWithTheLast` | plugin/mctl-bridge/ops/slot-pty.py:80-82 | A character without a column joins the cell before the cursor, if there is one |
| `TerminalCells.DefaultsToOne` | plugin/mctl-bridge/ops/slot-pty.py:126-138 | A number that is absent or zero counts as one |
| `TerminalCells.ControlCharacters` | plugin/mctl-bridge/ops/slot-pty.py:97-102 | Return goes to the first column, backspace one to the left; but for line feed, tab and escape no other control character does anything |
| `TerminalCells.LineFeeds` | plugin/mctl-bridge/ops/slot-pty.py:70-77 | A line feed goes down a row, or on the last row moves every row up and brings in a blank one |
| `TerminalCells.ParametersReadBack` | plugin/mctl-bridge/ops/slot-pty.py:126 | The numbers between semicolons are read in order, and what is no number as zero |
| `TerminalCells.TabStops` | plugin/mctl-bridge/ops/slot-pty.py:101 | A tab goes to the next multiple of eight, or to the last column when there is none |
| `TerminalCells.SavesAndRestores` | plugin/mctl-bridge/ops/slot-pty.py:107-110 | Whatever text without an escape comes between save and restore, the cursor returns to where it was saved |
| `TerminalCells.TitlePassesOver` | plugin/mctl-bridge/ops/slot-pty.py:105-115 | A title up to its bell changes nothing |
| `TerminalCells.CharacterSetPassesOver` | plugin/mctl-bridge/ops/slot-pty.py:106-112 | The choice of a character set changes nothing |
| `TerminalCells.PrivateDoesNothing` | plugin/mctl-bridge/ops/slot-pty.py:119-125 | A private sequence with any parameters changes nothing |
| `Terminal.Screen.Move` | plugin/mctl-bridge/ops/slot-pty.py:128-139 | A relative move goes as far as asked or to the edge, whichever is nearer; an absolute one goes to the place on the screen nearest to the one asked for; the other coordinate stays or goes to the line's start; cells, scrollback and saved position stay |
| `Terminal.MovesClamp` | plugin/mctl-bridge/ops/slot-pty.py:128-139 | The same of the move as a function of the screen, for every final letter and every list of parameters |
| `Terminal.ThereAndBack` | plugin/mctl-bridge/ops/slot-pty.py:128-135 | A move and its opposite by the same amount end where they began if and only if there was room or it began at the other edge, and not leftwards from past the last column |
| `Terminal.Screen.Feed` | plugin/mctl-bridge/ops/slot-pty.py:93-122 | The screen after a text is a function of the screen before and the characters alone; a raise stops it there |
| `Terminal.RaisesExactly` | plugin/mctl-bridge/ops/slot-pty.py:124-126 | A character raises if and only if it ends a sequence that is not private and one of whose `;`-separated parameters passes for digits and reads as no number |
| `Terminal.SuperscriptRaises` | plugin/mctl-bridge/ops/slot-pty.py:124-126 | On a fresh screen ESC `[` `²` `A` raises, a superscript two being a digit to `isdigit` and no number to `int` |
| `Envelopes.FromDict` | plugin/mctl-events/src/envelope.ts:90-137 | Exactly the documents that describe an envelope are accepted, as that envelope |
| `Envelopes.NormalizeSubject` | plugin/mctl-events/src/envelope.ts:115-128 | The subject is kept entry by entry when every key and value has its shape |
| `Envelopes.FirstBadField` | plugin/mctl-events/src/envelope.ts:100-106 | The first field, in the order checked, that is no text of its shape |
| `EnvelopeShapes.IdsAre` | plugin/mctl-events/src/envelope.ts:19 | The shape of an id is what its regular expression accepts, over all texts |
| `EnvelopeShapes.TypesAre` | plugin/mctl-events/src/envelope.ts:20 | So is that of a type: three words with a dot between each two |
| `EnvelopeShapes.SourcesAre` | plugin/mctl-events/src/envelope.ts:21 | So is that of a source |
| `EnvelopeShapes.SubjectKeysAre` | plugin/mctl-events/src/envelope.ts:22 | So is that of a subject key |
| `EnvelopeShapes.SubjectValuesAre` | plugin/mctl-events/src/envelope.ts:26-32 | So is that of a subject value, within 256 characters |
| `EnvelopeShapes.KindsAre` | plugin/mctl-events/src/envelope.ts:25-30 | So is that of a kind, within 64 characters: words with a dot between each two |
| `EnvelopeShapes.TimestampsAre` | plugin/mctl-events/src/envelope.ts:139-150 | A timestamp is accepted exactly when its regular expression accepts it and its date is in the calendar |
| `EnvelopeShapes.CalendarIs` | plugin/mctl-events/src/envelope.ts:147-150 | The length of a month is the difference of two counts of days, and February's what the other months leave of the year |
| `Envelopes.Parse` | plugin/mctl-events/src/envelope.ts:62-88 | A text is accepted as an envelope exactly when it is at most 4096 bytes of UTF-8, is JSON and describes that envelope |
| `Envelopes.RoundTrip` | plugin/mctl-events/src/envelope.ts:48-137 | Printing an accepted envelope gives a text that is accepted as the same envelope, its subject keys in order |
| `Envelopes.NeverLonger` | plugin/mctl-events/src/envelope.ts:48-82 | The canonical text is never longer, in bytes, than any text accepted for the envelope, so it stays within 4096 |
| `Envelopes.OrderDoesNotMatter` | plugin/mctl-events/src/envelope.ts:48-58 | Two envelopes print the same text exactly when they differ at most in the order of their subject keys |
| `Json.CanonicalReads` | plugin/mctl-events/src/util.ts:82-112 | Reading canonical JSON gives the value back with its keys in order, for every text of any characters |
| `JsonGrammar.ReadsExactly` | plugin/mctl-events/src/envelope.ts:79-86 | The reader accepts exactly the texts of the JSON grammar of RFC 8259, given apart from it by derivations: with white space wherever it may stand, every form of an escape and of a number, and each text as what its derivation means |
| `JsonGrammar.MeansOneThing` | plugin/mctl-events/src/envelope.ts:79-86 | All derivations of a text mean the same |
| `JsonGrammar.LastMemberCounts` | plugin/mctl-events/src/envelope.ts:79-86 | Of members with the same key the last one counts |
| `JsonGrammar.StringSpelled` | plugin/mctl-events/src/envelope.ts:79-86 | A string reads as its text however its characters are written; two escaped halves of a pair are one character |
| `Json.ValueReads` | plugin/mctl-events/src/util.ts:82-107 | What is written for a value reads back as that value whatever follows |
| `Json.CanonicalIsShortest` | plugin/mctl-events/src/util.ts:110-112 | Of the values an envelope holds (objects with entries and texts of printable ASCII that need no escape, nested to any depth): no text that says the same is shorter than the canonical one |
| `Json.CompareCodePoints` | plugin/mctl-events/src/util.ts:115-126 | Negative, zero or positive exactly as the texts are ordered by code point, a prefix first |
| `Json.SortSame` | plugin/mctl-events/src/util.ts:93-96 | Entries in any order sort to the same sequence |
| `Json.CharReads` | plugin/mctl-events/src/util.ts:102-107 | Every character, escaped or not, in one unit or two, reads back as itself |
| `Envelopes.WriteAscii` | plugin/mctl-events/src/util.ts:102-107 | Canonical text is printable ASCII whatever it says |
| `SlotRequests.AtMostOnce` | plugin/mctl-bridge/README.md:20-30 | Over any run: at most one effect per request id; an answer with a value is that effect's value, then and for ever; no entry is passed over |
| `SlotRequests.NextKeeps` | plugin/mctl-bridge/README.md:20-50 | Every step keeps: effects remembered, each value an effect, each answer the remembered one or a rejection, nothing skipped, nothing taken back |
| `SlotRequests.PoisonKeeps` | plugin/mctl-bridge/README.md:45-50 | Recording a failed handler keeps all of it |
| `SlotLinks.SlotLink.Rpc` | plugin/mctl-bridge/src/slotlink.ts:38-63 | Under a new id, or again under the id of an earlier call of the same request: a value returned is a stored answer to the id with exactly one effect, of this request; a rejection means no effect, now or later; a throw means that a command failed or that every attempt was used, with the answers read after each of them and none of those to the id, and leaves at most one effect; the request is sent at most `attempts` more times; the cursor never passes an answer to the call that it did not return |
| `SlotLinks.SlotLink.Attempts` | plugin/mctl-bridge/src/slotlink.ts:44-62 | The same request, and nothing else, is sent under the id, at most `attempts` times; it gives up only when a command failed, or when it was sent `attempts` times and after each the stream was read on from the cursor, as far as a read goes, without an answer to the id |
| `SlotLinks.SlotLink.Await` | plugin/mctl-bridge/src/slotlink.ts:46-61 | After a send the stream is read at least once, and what was read held no answer to the id unless one is returned |
| `SlotLinks.SlotLink.Read` | plugin/mctl-bridge/src/slotlink.ts:48-60 | The cursor moves past each answer as it is looked at and stops at the first one to the call; when there is none it stands behind all that was read |
| `SlotLinks.SlotLink.Open` | plugin/mctl-bridge/src/slotlink.ts:40-43 | A call without a cursor starts behind all answers there are; none can be to an id not used yet; a call with one goes on where it was |
| `SlotLinks.Ingester.Apply` | plugin/mctl-bridge/src/ingest.ts:66-79 | When it returns the entry is behind the checkpoint and the cursor past it: a request that could run took effect, or its handler raised and a handler error is its remembered answer; an entry already behind the checkpoint, handed over again after a lost reply, changes nothing; it fails only when a command had no answer |
| `SlotLinks.Ingester.CallIngest` | plugin/mctl-bridge/src/ingest.ts:66-70 | One call applies, stores and answers: an effect for the entry, or nothing at all when the handler raised |
| `SlotLinks.Ingester.RecordFailure` | plugin/mctl-bridge/src/ingest.ts:71-77 | A handler that raised is answered, for good, with a handler error |
| `SlotLinks.Ingester.ApplyBatch` | plugin/mctl-bridge/src/ingest.ts:55-62 | A batch is applied in order and nothing unread is passed over, whatever comes in meanwhile |
| `SlotLinks.Ingester.Step` | plugin/mctl-bridge/src/ingest.ts:44-64 | Nothing is taken back and nothing skipped; a pass that succeeds has read the next requests of every allowed slot, up to 100 each, is done with all of them, and returns how many they were; one that handled nothing found nothing waiting |
| `SlotLinks.Ingester.Cursor` | plugin/mctl-bridge/src/ingest.ts:33-41 | The cursor known, or the stored checkpoint, which is then remembered; never ahead of the checkpoint |
| `SlotLinks.TurnComes` | plugin/mctl-bridge/src/ingest.ts:55-62 | When the entries before it are done, the next entry of a batch is in turn, however much was appended since the read |
| `Wakes.StartsOnce` | plugin/mctl-bridge/src/waker.ts:205-268 | In any run `turn/start` is sent at most once per wake, and only for a recorded wake |
| `Wakes.IntentFirst` | plugin/mctl-bridge/src/waker.ts:176-202 | The step that sends a start finds the wake's intent recorded |
| `Wakes.CompletedHasEnded` | plugin/mctl-bridge/src/waker.ts:295-317 | A wake recorded as completed has a turn that holds its message and has ended, and the record never changes |
| `Wakes.FailedNeverStarts` | plugin/mctl-bridge/src/waker.ts:205-235 | Of a wake recorded as failed no turn is ever started, before or after, whatever happens later |
| `Wakes.StartedOnEvidence` | plugin/mctl-bridge/src/waker.ts:271-292 | A wake counts as started only when the server named the turn, or at some moment exactly one listed turn held its message |
| `Wakes.NextKeeps` | plugin/mctl-bridge/src/waker.ts:170-348 | Every step keeps the records right and takes nothing back |
| `Wakers.Waker.Run` | plugin/mctl-bridge/src/waker.ts:205-268 | Call by call: without a session nothing is sent and the wake is recorded as failed; with one the start is sent, once; refused with an error it is recorded as failed, and in no other case; without a named turn the history decides; a named turn is recorded and awaited. Unless a call failed or the waker is stopping, the wake is settled when it returns |
| `Wakers.Waker.SettleFromHistory` | plugin/mctl-bridge/src/waker.ts:271-292 | One reading of the history decides: when exactly one listed turn holds the message, that turn is the evidence on record, is recorded as the wake's, and completed if it has ended or else followed; in every other case, an unreadable history included, the wake is recorded as unknown; settled unless a call failed or it is stopping; nothing is sent |
| `Wakers.Waker.LookOnce` | plugin/mctl-bridge/src/waker.ts:299-310 | A turn that is not listed is recorded as unknown, one listed as ended as completed, and in every other case nothing is recorded |
| `Wakers.Waker.Follow` | plugin/mctl-bridge/src/waker.ts:295-317 | The history is looked at, at least once, until a look settles the turn or the waker stops; only when the last look settled nothing, and it does not stop, is it given up as unknown; a wake recorded as completed has a turn that ended; settled unless a call failed or it is stopping; nothing is sent |
| `Wakers.Waker.AwaitEnd` | plugin/mctl-bridge/src/waker.ts:216-263 | The first notification of this turn's end, on this thread, completes the wake, whatever others come before it; a closed connection, asked for after each of them, makes the turn followed through the history; otherwise, unless the waker stops, it is given up as unknown when the time is over; a wake recorded as completed has a turn that holds its message and has ended; settled unless a call failed or it is stopping; nothing is sent |
| `Wakers.Waker.Listen` | plugin/mctl-bridge/src/waker.ts:251-262 | Notifications of other threads and turns are passed over, and it ends with the first of this turn's end, a closed connection, a stop, or the end of the time |
| `Wakers.Waker.Recover` | plugin/mctl-bridge/src/waker.ts:320-328 | After a pass that did not fail and is not stopping, no wake is left in intent or started |
| `Wakers.Waker.SettleListed` | plugin/mctl-bridge/src/waker.ts:320-328 | A wake left in intent is settled from the history, one left started is followed, and no other is touched |
| `Wakers.Waker.Step` | plugin/mctl-bridge/src/waker.ts:337-348 | Recovery runs again after every pass that failed, so a recovered waker leaves no wake in intent or started |
| `Wakers.Waker.Tick` | plugin/mctl-bridge/src/waker.ts:176-202 | At most one wake is begun and at most one start sent, for that wake; the questions are asked about in order until one is begun or the thread or the budget is taken; what was settled stays settled |
| `Wakers.Plane.WakeFinish` | plugin/mctl-bridge/src/waker.ts:170-173 | When the call is answered, the record has moved as its outcome allows, or was resolved meanwhile; every other record is as it was or was resolved |
| `Wakers.Plane.ReadTurns` | plugin/mctl-bridge/src/waker.ts:123-151 | What is read lists every turn from some turn to the newest, newest first, and whatever is not listed started before the window; nothing is read only when a page could not be read or 50 pages held none but turns of the window |
| `Wakers.SoleListed` | plugin/mctl-bridge/src/waker.ts:69-73 | One match in the listing is the only turn of the listing that holds the message |
| `SlotAdapters.SettledBeforeNext` | plugin/mctl-bridge/src/channel.ts:221-281 | After a `next` that threw or a notification that failed, no `next` is issued before a lost emit was settled or a registration succeeded |
| `SlotAdapters.WritesWhatWasTaken` | plugin/mctl-bridge/src/channel.ts:254-281 | Each message taken is written, or fails to be, at once; nothing else is written; a message is marked as emitted only right after it was written |
| `SlotAdapters.OneWriteEach` | plugin/mctl-bridge/src/channel.ts:254-281 | As many attempts to write as messages taken |
| `SlotAdapters.Adapter.Tick` | plugin/mctl-bridge/src/channel.ts:217-281 | Call by call, as far as the answers let it go: the session is registered exactly when it is not yet; then a lost emit is settled exactly when there is one, the flag is sent exactly when it changed or is due, and one message is asked for exactly when the session is not busy; without a session nothing happens |
| `SlotAdapters.Adapter.GoOn` | plugin/mctl-bridge/src/channel.ts:224-281 | The part of a pass behind the registration, as the same sequence of calls |
| `SlotAdapters.Adapter.BusyMeans` | plugin/mctl-bridge/src/channel.ts:186-192 | Busy exactly when the hooks do not say idle, or the session has neither reported since the last message nor is the hold over |
| `SlotAdapters.Adapter.Register` | plugin/mctl-bridge/src/channel.ts:194-215 | One call; a success is a registration unlike any before, in force, settled, not yet reported; a refusal leaves none; a throw keeps the old one |
| `SlotAdapters.Adapter.SettleLost` | plugin/mctl-bridge/src/channel.ts:224-238 | One call exactly when an emit is unsettled; the pass goes on exactly when none is any more; a fenced answer ends the registration |
| `SlotAdapters.Adapter.Heartbeat` | plugin/mctl-bridge/src/channel.ts:240-252 | One call unless the server was told this flag already, not long ago; the pass goes on exactly when it was then last told this flag; a refusal ends the registration |
| `SlotAdapters.Adapter.Emit` | plugin/mctl-bridge/src/channel.ts:256-281 | One `next`, only when the server was told idle, the last message rested and nothing is unsettled; of what it took, one message at most, either the write failed or it was written and then marked; it leaves the emit unsettled exactly when the `next` threw or the write failed |
| `SlotAdapters.Adapter.Write` | plugin/mctl-bridge/src/channel.ts:268-280 | A notification that failed is all there is, and leaves the emit unsettled; one that was written is marked right after, whatever the answer |
| `SlotAdapters.Adapter.AckTask` | plugin/mctl-bridge/src/channel.ts:326-341 | A grant the server gave is stored exactly when it is for the task and attempt asked for, under the registration that was in force when it was asked and still is; every other answer is passed on and stores nothing |
| `SlotAdapters.Adapter.ReportResult` | plugin/mctl-bridge/src/channel.ts:349-357 | The result is sent under the stored admission, which is dropped exactly when the server took it; every other answer is passed on |

## Left out

- Sockets, timers, processes, HTTP, git processes, the file system and permission checks: only what they deliver is modelled.
- Wall-clock time: deadlines and holds are modelled as "may be over at any look", except in the slot adapter's hold after an emit.
- The text of notifications, log lines and audit records, tool schemas, command lines and configuration files.
- The promise chain behind the event adapter's lock: its sections are atomic towards one another, and what runs between them is any number of other sections.
- The dropping of in-flight state for an entry whose handling raised something unexpected (`plugin/mctl-events/src/channel.ts:549-560`, `:769-779`): handling is assumed not to.
- EventAdapter.Adapter.RedeliverStale: the order in which events are offered is any order, not the order they came into flight.
- EventAdapter.Adapter.Evict: which of the earlier acknowledgements remembered is dropped when there are too many is not modelled, so it may be any of them.
- Resp.Encode: a finite number that is no integer, which the code writes as its decimal text, is not represented.
- EventAdapter.Adapter.Live: in this method processes follow one another between sections; a death inside one is covered by `Restart` and by the runs of `Delivery`.
- EventAdapter.Adapter.Reclaim: what is taken over is what `XCLAIM` returned of the abandoned entries; that a fault-free pass takes them all is not stated, because others may take them, or touch them, between the listing and the claim.
- Delivery.FailedPushesAreFree: says nothing of an event a section of which was cut short between counting and refunding, because the code does not give that attempt back.
- Utf8 and Glob work on Unicode scalar values: texts with half a surrogate pair cannot occur. An escape of half a pair in JSON reads as U+FFFD, which no accepted field can hold either.
- Resp.IntegerValue: integers are unbounded; a JavaScript number rounds beyond 2^53, where no length can be completed anyway. Text is kept as bytes, so the replacement of invalid UTF-8 is not modelled.
- WebSocket.AppClient.Shut: that the socket is destroyed after a close is not modelled, so `Feed` and `ReceivesWhatWasSent` also speak of chunks that come after one, where the real socket hands over no more.
- WebSocket: the HTTP upgrade, the matching of JSON-RPC answers to requests, and lengths of 2^53 and more as rounded numbers.
- Json.CanonicalIsShortest: not of texts with characters that JSON need not escape and the canonical writer does, which are shorter unescaped.
- PublishRange.CheckRange: the comparison of two sorted lists of paths is modelled as equality of their multisets. The checks before it (the bundle, its hash, the ledger, base on main) and the push itself are not modelled.
- MergeGate.Gate: a field that is absent is any text that is not compared with; paging of GitHub's lists is not modelled.
- Terminal: the UTF-8 decoder, and what the Unicode tables and `int` say, which are parameters; `cols` of at least 2, since a wide glyph has no place on a narrower screen. `find_prompt` and the pty host.
- Json: a number is read but its value is not kept, and none is written; nesting is unlimited. Python's non-compact separators.
- Envelopes.FromDict: the reason given for a rejection is modelled, that it is the first in the order of the checks is stated only for the text fields.
- SlotLinks.SlotLink.Rpc: answers are not trimmed from the response stream before they are read; how long one attempt waits is any number of reads, but at least one.
- SlotLinks.Ingester: that the slot of an entry is taken from the name of its stream is modelled by reading each stream under its slot's name; the cutting of the name out of the key is not.
- Wakers.Plane.ReadTurns: the pages of one read are pages of one listing; that the listing changes between two pages is not modelled.
- Wakers.Waker.Tick: which question is asked about, and the budgets, are the store's to decide; wakes of other threads are not in the model.
- SlotAdapters.Adapter.Tick: a tool call that waits sees the adapter between two passes, not in the middle of one.
- `bridge.lua` beyond the steps its callers state, the sweeper, `reconcile.ts`, `codexctl.ts`, `redact`, policy validation, the store wrappers, the stdio servers and the health proxy.
