# Hyperliquid SDK: a verified model

The SDK signs requests for an exchange and keeps a WebSocket connection to it. This project
models the parts of it that carry real logic and proves, for all inputs and all runs, what
they promise:

- the Keccak sponge behind every signature (`Sha3` over `Absorption`, `KeccakF`, `RoundConstants`
  and `KeccakInverse`, against `Fips202`);
- the connection machine (`RunnerModel`, `RunnerSafety`, `RunnerTheorems`, `RunnerHistory`, and the
  class in `Runner`);
- the lock-free nonce allocator (`Nonce`);
- matching post responses to requests (`PostRequests`);
- the bytes that are signed or decoded (`ActionHash`, `Eip712`, `UserSigned`, `SignedBytes`,
  `TypeTexts`, `Hex`, `Base64`);
- wire numbers and asset ids (`WireNumbers`, `AssetIds`).

`Bits`, `Arithmetic` and `Wrappers` are shared ground. `dafny verify dfyconfig.toml` checks
everything.

## How it is modelled

**Keccak.** `Fips202` writes the standard down on bit strings: every step mapping of a round
rewrites the whole state at once, the offsets of rho come from the walk of its definition, and
the sponge works on a padded bit string. `KeccakF` and `Sha3` are the C code: 25 words in an
array rewritten in place, the temporary carried around the 24-cycle, the context with its
`saved` word and two indices. A 64-bit word is the sequence of its 64 bits, lowest first. The
main result is that the second computes the first: `KeccakF.Permute` for the permutation,
`Sha3.Context.Update` and `Finalize` for the sponge, `Sha3.HashBuffer` for the whole hash. The
ghost field `message` is what was passed to `Update`; `Valid` makes every other field a
function of it, and that is why the way a message is cut into pieces does not matter.

**Connection machine.** `RunnerModel.Step` is one handler call on the event-loop thread; the
environment picks the next event among completions, errors, timer expiries, calls of `send`
and `stop`, and pongs, at times that never run backwards. A timer wait is `Armed`, `Expired`
or `Cancelled`, so an expiry that is already on its way when the timer is cancelled still
arrives, as with real timers. The class `Runner.WebsocketRunner` has the original's fields and
handlers, and each handler is proved to do to them what the transition system says
(`Dispatch`, `Run`); the theorems are then about runs of the transition system.
Two assumptions are made of the environment. `start` is called once per run. And
(`Drained`) when a WebSocket handshake succeeds, everything owed to the stream it replaces (reads,
writes, closes, ping waits, posted pings) has been delivered. The code relies on it: its guards
tell a stale completion from a current one only by `connected_`.
Where the class keeps `io` and `log`, these are the operations in flight and
what an observer has seen; they are not fields of the original.

`RunnerHistory` then says what the state is from the events alone: which messages were sent and what
became of them, what `stop` posts, which steps an attempt has behind it, when timers are due and
why, and every callback the listener hears. No counter or flag of the model's own is part of these
statements.

**Nonces.** `values` is the modification order of the atomic. A relaxed load may return any
value not older than the newest one its thread wrote; a weak exchange may fail spuriously, and
a failure may return any value not older than the one the thread holds; a success is sure to
have met the latest value. The clock is arbitrary. The method `NextNonce` is the loop itself,
and it is proved that executing it, with other threads acting in between, is a run of that system.

**Hashes.** The hash in the encodings is the Keccak-256 proved about in `Sha3`, not an abstract
one. That it does not collide is never assumed in general: the lemmas that need it ask
for it at the pairs of inputs in question (`NoCollision`). MessagePack is any prefix-free
encoding. `SignedBytes` and `TypeTexts` spell out what is hashed, byte by byte and character by
character, so that the encodings are fixed and not only told apart.

**What turned out not to hold as one might expect**, each with its exact condition and an input:

- A failed write leaves queued messages with no write on its way until the next message, ping or
  reconnect (`RunnerTheorems.NoLostWakeup`, `FailedWriteStalls`).
- `stop` can be overtaken by a read error and be without effect (`StopTakesEffect`, `StopOvertaken`).
- Nonces start over, and can repeat, once a call succeeds on top of the largest 64-bit value
  (`Nonce.NoncesIncrease`, `NoncesRepeat`).
- One action with one nonce can sign alike for two different pairs of vault and expiry, when a vault of
  an unusual length stands for a vault and an expiry; action and nonce are always told apart
  (`ActionHash.PreimagesMeet`, `SafeLengths`, `LongVaultReadsAsExpiry`).
- Addresses that are no 20 bytes long all sign as the zero address does (`Eip712.AddressesMeet`,
  `BadAddressesCollide`).
- Request ids are negative from 2^31 requests on and reused from 2^32 on (`PostRequests.IdIsNumber`,
  `IdsRunOut`).
- Asset ids of different kinds meet just past the stated counts (`AssetIds.SizesExact`).

## Model

| member | source | states |
|---|---|---|
| KeccakF.Theta | src/signing/sha3.c:84-92 | the two in-place loops compute theta of section 3.2.1 of FIPS 202, although later columns are written while earlier ones have changed |
| KeccakF.WrittenOnce | src/signing/sha3.c:67-70 | the cycle table writes each word but the first at one step only |
| KeccakF.WalkAt | src/signing/sha3.c:67-70 | the cycle table follows the walk in the standard's definition of rho |
| KeccakF.RotcIsOffset | src/signing/sha3.c:62-65 | the rotation table gives every lane the offset that definition computes for it |
| KeccakF.CarryOn | src/signing/sha3.c:97-100 | one turn of the loop moves and turns one lane, keeps the rest, and leaves the next lane in hand |
| RoundConstants.RoundConstant | src/signing/sha3.c:47-60 | every constant of the table is the word that the shift register of section 3.2.5 of FIPS 202 gives that round |
| KeccakF.RhoPi | src/signing/sha3.c:94-101 | the loop that carries one word around the 24-cycle computes pi after rho, applied simultaneously to all lanes; lane 0 stays |
| KeccakF.Chi | src/signing/sha3.c:103-109 | the row loops compute chi of the standard on the whole state |
| KeccakF.Permute | src/signing/sha3.c:75-114 | the in-place permutation leaves the 24 rounds of FIPS 202 of the state it found, its round constants included, for every state |
| KeccakInverse.ThetaUndone | src/signing/sha3.c:84-92 | theta has a two-sided inverse: what it does to column parities is undone by its 191st power |
| KeccakInverse.KeccakPInvertible | src/signing/sha3.c:75-114 | the whole permutation is a bijection of the state |
| Absorption.StoreByte | src/signing/sha3.c:181-182 | or-ing a shifted byte into the unfinished word appends that byte to it |
| Absorption.ReadWord | src/signing/sha3.c:216-223 | the eight-way expression reads the same word as storing the eight bytes one by one |
| Absorption.AbsorbWord | src/signing/sha3.c:195-203 | combining one word, and permuting when the index reaches the rate, takes the state of the words before to the state of the words with it |
| Absorption.PaddedShape | src/signing/sha3.c:247-250 | the padding of the standard ends in the block the message leaves unfinished, and where its ones and zeros are |
| Absorption.FinalBlock | src/signing/sha3.c:258-278 | the two words `sha3_Finalize` combines, which may be one word and share a byte, make the last padded block; permuting gives the absorbed padded message |
| Sha3.Context.Init | src/signing/sha3.c:118-127 | accepts exactly 256, 384 and 512 and then holds the empty message; otherwise changes nothing |
| Sha3.Context.SetFlags | src/signing/sha3.c:147-154 | keeps the context and its rate, selects plain Keccak when bit 0 is set, and returns that bit |
| Sha3.Context.Update | src/signing/sha3.c:157-245 | through all three paths and for every length, the context of a message becomes the context of the message followed by the input |
| Sha3.Context.WithinBounds | src/signing/sha3.c:173-174 | byte index below 8, word index below the rate, and `saved` zero above its bytes, in every reachable context |
| Sha3.UpdateAll | src/signing/sha3.c:157-245 | any sequence of updates, empty pieces included, is one update with the concatenation |
| Sha3.SameMessageSameContext | src/signing/sha3.c:157-245 | two contexts of one capacity that were fed the same message in any two ways agree in every field |
| Sha3.ToBytes | src/signing/sha3.c:285-299 | the bytes returned hold the state's bits in the order of the standard |
| Sha3.Context.Finalize | src/signing/sha3.c:251-304 | the bytes returned are the absorbed bit string: the message, 01 unless the Keccak flag is set, and pad10*1, at the rate the capacity leaves; the words hold the same bits, as they do after the overlay on a little-endian machine |
| Sha3.DigestIsHash | src/signing/sha3.c:306-323 | the front of that state is the front of the sponge's output |
| Sha3.HashBuffer | src/signing/sha3.c:306-323 | fails exactly on a size other than 256, 384 and 512 or a flag other than 0 and 1, touching nothing; otherwise writes the sponge's output for the message, with 01 appended for flag 0 and nothing for flag 1, cut to the shorter of the output and the digest, and nothing behind it |
| Sha3.Keccak | src/signing/SigningHelpers.cpp:19-30 | returns 256 bits of the sponge of rate 1088 on the data without any suffix, the data's length taken modulo 2^32 as the cast does |
| RunnerSafety.CompletesFront | src/websocket/WebsocketRunner.cpp:208-219 | a write that completes on a live connection belongs to this stream and is the queue's front, so the pop never meets an empty queue |
| RunnerSafety.DueAfterInterval | src/websocket/WebsocketRunner.cpp:284-307 | when a ping wait runs, a pong is overdue exactly when a ping is unanswered, because a full interval has passed since the tick that asked |
| RunnerSafety.StepKeepsInv | src/websocket/WebsocketRunner.cpp:28-318 | every handler keeps the invariant of connection, queue, reads and heartbeat |
| RunnerSafety.RunKeepsInv | src/websocket/WebsocketRunner.cpp:28-318 | the invariant holds after every run |
| RunnerTheorems.OneLineAlways | src/websocket/WebsocketRunner.cpp:56-144 | after every run there is at most one of live connection, attempt in progress and pending reconnect; and exactly one from `start` until `stop` is called |
| RunnerTheorems.CallbacksAlternate | src/websocket/WebsocketRunner.cpp:134-179 | the listener hears connected, disconnected, connected and so on, starting with connected; `connected_` says which came last |
| RunnerHistory.StepsInOrder | src/websocket/WebsocketRunner.cpp:56-114 | an attempt is at the step after those that succeeded, and a connection is up only after resolving, connecting, the TLS and the WebSocket handshake, in this order |
| RunnerHistory.NewStreamEachTime | src/websocket/WebsocketRunner.cpp:269-270 | every reconnect puts a new stream in place |
| RunnerHistory.AlwaysReading | src/websocket/WebsocketRunner.cpp:146-151 | a live connection that is not closing always has exactly one read out, on its own stream |
| RunnerTheorems.Delivery | src/websocket/WebsocketRunner.cpp:195-219 | messages handed over are, in order, those with a fate and then the queue; the acknowledged ones are exactly those successful writes carried, in order; since the last reconnect of the run they are a prefix with no loss and no duplicate |
| RunnerHistory.SentIsPosted | src/websocket/WebsocketRunner.cpp:33-41 | the messages given to `send` are, as a multiset, those whose posted task has run and those whose task is still to run |
| RunnerHistory.NothingLost | src/websocket/WebsocketRunner.cpp:33-41 | the messages given to `send` and the pings are, as a multiset, those still posted, those acknowledged or dropped, and those queued |
| RunnerTheorems.OneWriteAlways | src/websocket/WebsocketRunner.cpp:201-205 | on a live connection at most one write is out, on the current stream, and it carries the queue's front |
| RunnerTheorems.NoLostWakeup | src/websocket/WebsocketRunner.cpp:33-41 | on a live connection messages wait with no write on its way exactly when, of the run's write completions, messages handed over and handshakes, the last was a failed write; at any other time the queue is non-empty exactly when `writing_` is set, and then its front is being written |
| RunnerTheorems.FailedWriteStalls | src/websocket/WebsocketRunner.cpp:211-215 | a run in which a failed write leaves a message queued on a live connection with nothing on its way |
| RunnerHistory.Watchdog | src/websocket/WebsocketRunner.cpp:295-307 | when the ping timer fires on a live connection, a timeout is declared exactly when the timer has fired before on this connection and no pong came since |
| RunnerHistory.TicksSpaced | src/websocket/WebsocketRunner.cpp:284-293 | a tick comes at least 30 seconds after its timer was armed and after the tick before |
| RunnerHistory.AlwaysOnTime | src/websocket/WebsocketRunner.cpp:284-293 | on a live connection a ping wait is due exactly 30 seconds after the handshake or the posted ping that armed it, which was after the last tick |
| RunnerTheorems.HeartbeatGoesOn | src/websocket/WebsocketRunner.cpp:284-318 | a live connection that nobody stopped has exactly one ping wait or posted ping to go on with, never two |
| RunnerTheorems.Backoff | src/websocket/WebsocketRunner.cpp:234-235 | the delays start at two seconds, double, never shrink and stay at 60 from the sixth failure on |
| RunnerHistory.FailureIsRetried | src/websocket/WebsocketRunner.cpp:229-244 | every failed attempt and every lost connection arms the reconnect timer, due the delay of k after it when it is the k-th failure since a connection came up |
| RunnerHistory.BackoffAndCallbacks | src/websocket/WebsocketRunner.cpp:229-244 | after every run the attempt counter and a pending reconnect's deadline are those of the failures, and the listener heard exactly what the events say: connected, disconnected with an error, or disconnected by a close |
| RunnerHistory.StopCloses | src/websocket/WebsocketRunner.cpp:48-54 | after any run that is not stopping, `stop` leaves no reconnect and no ping waited for, and its close able to run, which closes a live connection |
| RunnerHistory.ClosesArePosted | src/websocket/WebsocketRunner.cpp:51-53 | the calls of `stop` that find the loop running and no close under way are as many as the closes run and still to run |
| RunnerHistory.ClosingWaitsForNoPing | src/websocket/WebsocketRunner.cpp:223-224 | a connection that is closing waits for no further ping |
| RunnerTheorems.StopTakesEffect | src/websocket/WebsocketRunner.cpp:48-54 | once started, the runner is closing, or has no connection, attempt or awaited reconnect, exactly when some posted close of `stop` found a live connection or some `stop` found the reconnect timer still waiting |
| RunnerTheorems.OffForGood | src/websocket/WebsocketRunner.cpp:153-244 | from then on, whatever happens, no reconnect is armed, no attempt made, and no callback comes but the one that ends a connection that is closing |
| RunnerTheorems.StopOvertaken | src/websocket/WebsocketRunner.cpp:177-183 | a run in which a read error between `stop` and its posted close leaves the runner about to reconnect |
| Runner.WebsocketRunner.Dispatch | src/websocket/WebsocketRunner.cpp:28-318 | whichever event comes, the fields change as the transition system says, no more and no less |
| Runner.Run | src/websocket/WebsocketRunner.cpp:28-318 | an object that handles the events of any run ends in the state of that run, so the theorems about runs are about the class |
| Nonce.StepKeeps | src/signing/Signing.cpp:15-28 | every atomic step of any thread keeps the chain of values and what threads may have seen |
| Nonce.NoncesIncrease | src/signing/Signing.cpp:23-27 | for any threads, interleaving, stale loads, spurious failures and clock, nonces increase strictly in order of success if and only if no call succeeded on top of the largest 64-bit value |
| Nonce.NoncesRepeat | src/signing/Signing.cpp:18-26 | a run of four calls in which the condition fails and one nonce is issued twice |
| Nonce.CallsInOrder | src/signing/Signing.cpp:18-27 | a nonce is at least its own call's clock reading, and larger than every nonce issued before its call began |
| Nonce.FailureMeansProgress | src/signing/Signing.cpp:26 | a failed exchange that found another value means that another thread succeeded in between |
| Nonce.Drift | src/signing/Signing.cpp:25 | after k calls the counter is exactly the largest of k and, for each call, its reading plus the calls after it; so it is at most k beyond the largest reading |
| Nonce.NextNonce | src/signing/Signing.cpp:21-27 | executing the loop, with other threads in between, is a run of the protocol that ends with the success that issues the result; undisturbed it needs at most two attempts |
| PostRequests.IdIsNumber | src/websocket/WebsocketApi.cpp:101 | the id of the n-th request, and its map key, are n exactly as long as n is below 2^31 |
| PostRequests.IdsRepeat | src/websocket/WebsocketApi.cpp:101 | ids, and with them map keys, start over after 2^32 requests |
| PostRequests.KeysDistinct | src/websocket/WebsocketApi.cpp:101-104 | up to 2^32 requests the map key, sign extension included, tells the request |
| PostRequests.StepKeepsCorrelation | src/websocket/WebsocketApi.cpp:101-105 | up to 2^32 requests, every step keeps: the map is what is registered and unanswered, with each request's own data |
| PostRequests.RegisteredBeforeQueued | src/websocket/WebsocketApi.cpp:101-114 | in every run an id is queued only after it was registered, and each received message was a pong, a delivery or passed on, exactly one of them |
| PostRequests.EventsCounted | src/websocket/WebsocketApi.cpp:50-79 | requests are those asked for in their order, messages count while nothing stops, and the pongs counted are exactly the pongs among them |
| PostRequests.QueuedOnce | src/websocket/WebsocketApi.cpp:101-114 | up to 2^32 requests no id is queued twice, and a registered id is queued or its thread is about to queue it |
| PostRequests.DeliveredOnceWithOwnInfo | src/websocket/PostResponseDispatch.cpp:221-240 | in every run of at most 2^32 requests, with responses in any order, duplicates and unknown ids: outstanding is registered minus answered, each delivery carries the type and correlation id of the one request with its id, and no request is delivered twice; up to 2^31 requests that id is the request's number |
| PostRequests.IdsRunOut | src/websocket/WebsocketApi.cpp:101-104 | a run of 2^32 + 1 requests in which an answered id is outstanding again, so the bound is the largest |
| PostRequests.DuplicateIgnored | src/websocket/PostResponseDispatch.cpp:232-237 | a second response with one id changes nothing and is only passed on |
| PostRequests.Correlator.SignAndSend | src/websocket/WebsocketApi.cpp:101-114 | one uninterrupted call is the three steps of the protocol in their order, counter wrap included |
| PostRequests.Correlator.HandlePost | src/websocket/PostResponseDispatch.cpp:221-240 | lookup, erase and delivery are the receive step of the protocol |
| Base64.Int32Accumulates | src/websocket/WebsocketParsingUtils.cpp:28 | shifting and adding in a wrapping 32-bit int stays equal to the unbounded value modulo 2^32 |
| Base64.PushedByte | src/websocket/WebsocketParsingUtils.cpp:30-34 | the byte pushed is the same as from an unbounded accumulator, and is the next byte the sextets spell |
| Base64.Base64Decode | src/websocket/WebsocketParsingUtils.cpp:22-36 | for every input the output is the whole bytes of the bit string its alphabet characters spell, three for every four characters rounded down |
| Base64.Alphabet | src/websocket/WebsocketParsingUtils.cpp:16-18 | the alphabet is A to Z, a to z, 0 to 9, plus and slash, in this order |
| Base64.InAlphabetExactly | src/websocket/WebsocketParsingUtils.cpp:27 | a character is skipped exactly if it is not in the alphabet |
| Base64.DecodedValue | src/websocket/WebsocketParsingUtils.cpp:28-34 | the bytes decoded spell, highest first, the number the sextets spell, without the bits that fill no byte |
| Base64.RoundTrip | src/websocket/WebsocketParsingUtils.cpp:9-37 | decoding undoes the encoding of section 4 of RFC 4648 for every byte string, with padding or without |
| Base64.OtherCharactersIgnored | src/websocket/WebsocketParsingUtils.cpp:27 | a character outside the alphabet may stand anywhere and changes nothing |
| Hex.EncodeUint256 | src/signing/SigningHelpers.cpp:77-83 | the 32 bytes have the number as their big-endian value |
| SignedBytes.WordBytes | src/signing/SigningHelpers.cpp:79-82 | 24 zero bytes and the eight bytes of the number, highest first |
| Hex.HexToBytes | src/signing/SigningHelpers.cpp:32-53 | fails exactly on a character that is no hex digit; else the bytes the digits spell, after an optional 0x and with a zero before an odd number of digits |
| Hex.DigitsParse | src/signing/SigningHelpers.cpp:41-50 | digits parse to the bytes of their value, with a prefix of either case or none, and an odd first one stands alone |
| Hex.CaseBlind | src/signing/SigningHelpers.cpp:34-39 | upper and lower case read the same and fail the same |
| Hex.PaddedText | src/signing/SigningHelpers.cpp:70-74 | 0x, and two lower-case digits for every byte, the high one first |
| Hex.ToHexPadded | src/signing/SigningHelpers.cpp:68-75 | prints what parses back to the same bytes |
| Hex.ParsedPadded | src/signing/SigningHelpers.cpp:32-75 | parsing undoes padded printing for every byte string |
| Hex.ToHex | src/signing/SigningHelpers.cpp:55-66 | the text is 0x0 or has no zero right after the 0x |
| Hex.ParsedShortest | src/signing/SigningHelpers.cpp:32-66 | parsing the shortest form gives bytes of the same big-endian value |
| Hex.ShortestInjective | src/signing/SigningHelpers.cpp:55-66 | byte strings of one length never share a shortest form |
| ActionHash.ActionHash | src/signing/SigningHelpers.cpp:93-122 | fails exactly on a vault that is no hex text; otherwise the hash of the preimage of action, nonce, the vault's bytes if there is one, and expiry |
| SignedBytes.PreimageBytes | src/signing/SigningHelpers.cpp:99-119 | the action; the nonce's eight bytes, highest first; 0, or 1 and the vault; and nothing, or 0 and the expiry's eight bytes: every byte by position |
| ActionHash.PreimagesMeet | src/signing/SigningHelpers.cpp:99-119 | with a prefix-free action encoding and vaults of any lengths, two preimages are equal if and only if action and nonce are equal and either vault and expiry are too, or one vault without an expiry is the other vault followed by a zero byte and its eight expiry bytes |
| ActionHash.SafeLengths | src/signing/SigningHelpers.cpp:107-118 | vaults limited to a set of lengths never confuse vault and expiry if and only if no two permitted lengths differ by nine |
| ActionHash.UniquelyDecodable | src/signing/SigningHelpers.cpp:99-119 | with a prefix-free action encoding and vaults of such lengths, 20 bytes for one, equal bytes mean equal action, nonce, vault and expiry, presence included |
| ActionHash.LongVaultReadsAsExpiry | src/signing/SigningHelpers.cpp:107-118 | for every action, nonce, vault and expiry there is a longer vault without an expiry that has the same bytes |
| ActionHash.DigestBinds | src/signing/Signing.cpp:337-353 | the signed digest determines action, nonce and network, and vault and expiry up to the exception above, which safe lengths rule out, unless the hash collides at one of four named pairs |
| SignedBytes.L1Bytes | src/signing/Signing.cpp:345-350 | what is signed is the hash of 0x19 0x01, the Exchange domain of version 1 and chain 1337, and the agent struct with source a on the main network and b on the other |
| SignedBytes.DomainBytes | src/signing/SigningHelpers.cpp:158-178 | the domain is the hash of the type's hash, the name's, the version's, the chain's word and 32 zero bytes |
| SignedBytes.HashIsKeccak | src/signing/SigningHelpers.cpp:19-30 | the hash in all encodings is the sponge of rate 1088 without a suffix |
| Eip712.TypeString | src/signing/SigningHelpers.cpp:204-210 | the loop builds encodeType of EIP-712: the name and the members, separated by commas, in parentheses |
| Eip712.UserSignedStructHash | src/signing/SigningHelpers.cpp:199-255 | succeeds exactly when all fields encode, and then hashes the type hash followed by the words |
| Eip712.WordOfField | src/signing/SigningHelpers.cpp:218-252 | for recognised types, bytes 32i to 32i+32 of the words are the encodeData of field i |
| Eip712.StructLayout | src/signing/SigningHelpers.cpp:212-252 | exactly 32(1+n) bytes, the first word the type hash, word i+1 the encodeData of field i |
| SignedBytes.FieldBytes | src/signing/SigningHelpers.cpp:218-252 | the word of each type by its bytes: hashes for text and bytes, the number's word, 31 zeros and the truth value, 12 zeros and the address, or zeros |
| Eip712.AddressesMeet | src/signing/SigningHelpers.cpp:85-91 | two addresses have the same word if and only if they are equal or each is the zero address or of a wrong length |
| Eip712.FieldBinds | src/signing/SigningHelpers.cpp:220-251 | two values of one type have the same word if and only if they sign the same value or are two addresses with zero words, given no collision between what they hash |
| Eip712.EncodingBinds | src/signing/SigningHelpers.cpp:218-252 | two actions have equal encodings if and only if this holds in every field, given no collision between the values hashed |
| Eip712.GoodAddressesBind | src/signing/SigningHelpers.cpp:85-91 | with addresses of 20 bytes on both sides the exception does not arise |
| Eip712.BadAddressesCollide | src/signing/SigningHelpers.cpp:85-91 | all addresses of a wrong length, and the zero address, sign as the same zero word |
| UserSigned.SchemasWellFormed | src/signing/Signing.cpp:224-314 | the switch has a list for exactly the endpoints `isUserSignedAction` names; every list uses recognised types only, starts with the chain and ends with its 64-bit nonce or time |
| TypeTexts.UsdSendText | src/signing/Signing.cpp:226-231 | the type text signed for this action, spelled out: primary type, and every field's type and name in order |
| TypeTexts.Withdraw3Text | src/signing/Signing.cpp:232-237 | the type text signed for this action, spelled out: primary type, and every field's type and name in order |
| TypeTexts.SpotSendText | src/signing/Signing.cpp:238-243 | the type text signed for this action, spelled out: primary type, and every field's type and name in order |
| TypeTexts.UsdClassTransferText | src/signing/Signing.cpp:244-250 | the type text signed for this action, spelled out: primary type, and every field's type and name in order |
| TypeTexts.SendAssetText | src/signing/Signing.cpp:251-258 | the type text signed for this action, spelled out: primary type, and every field's type and name in order |
| TypeTexts.ApproveBuilderFeeText | src/signing/Signing.cpp:259-265 | the type text signed for this action, spelled out: primary type, and every field's type and name in order |
| TypeTexts.UserSetAbstractionText | src/signing/Signing.cpp:266-272 | the type text signed for this action, spelled out: primary type, and every field's type and name in order |
| TypeTexts.CDepositText | src/signing/Signing.cpp:273-281 | the type text signed for this action, spelled out: primary type, and every field's type and name in order |
| TypeTexts.CWithdrawText | src/signing/Signing.cpp:273-281 | the type text signed for this action, spelled out: primary type, and every field's type and name in order |
| TypeTexts.TokenDelegateText | src/signing/Signing.cpp:282-288 | the type text signed for this action, spelled out: primary type, and every field's type and name in order |
| TypeTexts.SendToEvmWithDataText | src/signing/Signing.cpp:289-297 | the type text signed for this action, spelled out: primary type, and every field's type and name in order |
| TypeTexts.UserDexAbstractionText | src/signing/Signing.cpp:298-304 | the type text signed for this action, spelled out: primary type, and every field's type and name in order |
| TypeTexts.UserPortfolioMarginText | src/signing/Signing.cpp:305-311 | the type text signed for this action, spelled out: primary type, and every field's type and name in order |
| TypeTexts.ApproveAgentText | src/signing/Signing.cpp:157-165 | the type text signed for this action, spelled out: primary type, and every field's type and name in order |
| UserSigned.PrepareUserSignedActionBody | src/signing/Signing.cpp:210-335 | fails without a wallet, for other endpoints and on fields that do not encode; otherwise the body holds the filled action, the nonce and the digest of that action |
| SignedBytes.FilledFields | src/signing/Signing.cpp:319-321 | the action signed and sent has the network's name, the chain 0x66eee and the nonce or time set, and every other field as given |
| SignedBytes.DigestBytes | src/signing/Signing.cpp:126-132 | what is signed is the hash of 0x19 0x01, the HyperliquidSignTransaction domain of version 1 and chain 0x66eee, and the struct's hash |
| UserSigned.NonceAndChainSigned | src/signing/Signing.cpp:316-326 | in every prepared body the last signed word is the envelope nonce, the action's own field equals it, and the first signed word is the network's name |
| UserSigned.PrepareApproveAgentBody | src/signing/Signing.cpp:135-179 | a missing name is signed as the empty text but left out of the action that is sent |
| WireNumbers.FloatToWire | src/messages/ExchangeRequestBuilder.cpp:81-101 | accepts exactly the numbers less than 1e-12 away from a multiple of 1e-8, and then the text reads back as that multiple |
| WireNumbers.NearIsNearest | src/messages/ExchangeRequestBuilder.cpp:84-88 | a multiple that near is the one printed, so there is only one |
| WireNumbers.PrintShort | src/messages/ExchangeRequestBuilder.cpp:90-100 | prints a multiple of 1e-8 in the form the next three rows are about |
| WireNumbers.WireParses | src/messages/ExchangeRequestBuilder.cpp:81-101 | parsing the text gives back the number, for every multiple of 1e-8 |
| WireNumbers.WireInjective | src/messages/ExchangeRequestBuilder.cpp:81-101 | different numbers print differently |
| WireNumbers.WireCanonical | src/messages/ExchangeRequestBuilder.cpp:91-99 | the text ends in a digit, never in a dot and never in a zero of the fraction |
| WireNumbers.WholePartCanonical | src/messages/ExchangeRequestBuilder.cpp:81-101 | a minus sign for negative numbers only, no zero in front of another digit of the whole part, and 0 for zero |
| WireNumbers.UnitsOfText | src/messages/ExchangeRequestBuilder.cpp:81-82 | what reading back means: the whole part counts 1e8 units each, the fraction's digits 1e7, 1e6 and so on |
| WireNumbers.NearMeans | src/messages/ExchangeRequestBuilder.cpp:87-88 | near means less than 1e-12 away |
| AssetIds.RuleGrows | src/rest/SymbolMap.cpp:5-13 | one more call changes the rule's answer only for its symbol, and an `add` only where there was none |
| AssetIds.SetWins | src/messages/ExchangeRequestBuilder.cpp:33-37 | a symbol that was ever `set` has an id some `set` gave it, whatever was added before or after |
| AssetIds.NameResolves | src/messages/ExchangeRequestBuilder.cpp:33-37 | a name whose `set`s agree on one id resolves to it, whatever alias spells the same and wherever it was added |
| AssetIds.DexAssetResolves | src/messages/ExchangeRequestBuilder.cpp:13-77 | after the whole mapping an asset of a selected dex resolves to 100000+(p+1)*10000+i, unless a later mapped dex asset bears its name; names of perpetuals, pairs and aliases do not matter |
| AssetIds.PerpResolves | src/messages/ExchangeRequestBuilder.cpp:22-27 | after the whole mapping a perpetual resolves to its position, unless a later `set` bears its name |
| AssetIds.PairResolves | src/messages/ExchangeRequestBuilder.cpp:44-47 | a pair resolves to 10000 plus its own index, unless a later `set` bears its name |
| AssetIds.AliasResolves | src/messages/ExchangeRequestBuilder.cpp:48-53 | a text BASE/QUOTE, base first, that is nobody's own name resolves to the first pair that claims it |
| AssetIds.LastTokenNamed | src/messages/ExchangeRequestBuilder.cpp:39-43 | a token index stands for the token listed last under it |
| AssetIds.SymbolMap.Add | src/rest/SymbolMap.cpp:5-8 | the map goes on to be what the rule says, the call included |
| AssetIds.SymbolMap.Set | src/rest/SymbolMap.cpp:10-13 | the same, for `set` |
| AssetIds.SymbolMap.Resolve | src/rest/SymbolMap.cpp:15-23 | the last `set`, else the first `add`, else failure, after any sequence of calls |
| AssetIds.MapSpots | src/messages/ExchangeRequestBuilder.cpp:44-54 | pairs are set to 10000 plus their own index and aliased when they have two tokens; stops exactly at the first pair with a token that is not listed, whose own name is still set |
| AssetIds.MapDexes | src/messages/ExchangeRequestBuilder.cpp:58-76 | the loop with its running counters makes the calls that list positions alone determine |
| AssetIds.InitializeMapping | src/messages/ExchangeRequestBuilder.cpp:13-77 | nothing without a wallet; otherwise the calls for perpetuals, pairs and selected dexes, in this order, and without the dexes when a token was not listed |
| AssetIds.DexIdsIndependent | src/messages/ExchangeRequestBuilder.cpp:59-76 | asset i of the dex at position p is set to 100000+(p+1)*10000+i whichever other dexes are selected |
| AssetIds.DexCallsSound | src/messages/ExchangeRequestBuilder.cpp:59-76 | no other ids are set by that loop |
| AssetIds.IdsDecodable | include/hyperliquid/types/RequestTypes.h:964-972 | within the bounds an id tells its kind and its numbers |
| AssetIds.IdsDisjoint | include/hyperliquid/types/RequestTypes.h:964-972 | within the bounds no two assets share an id |
| AssetIds.BoundsTight | include/hyperliquid/types/RequestTypes.h:964-972 | one step beyond any of the bounds two assets do share one |
| AssetIds.SizesExact | include/hyperliquid/types/RequestTypes.h:964-972 | for any counts of perpetuals, pairs, dexes, assets per dex and outcome sides, with each kind present and at least two dexes, no two assets share an id if and only if the counts are within the bounds |

## Left out

- Sockets, TLS, DNS, HTTP, zlib, JSON parsing, secp256k1 and key handling: library calls; where a
  modelled function meets one, its success or failure is an input or an event.
- The message parsers, the request builders other than those named, the REST client and the string
  tables copy fields and hold no invariant worth stating.
- Sha3.Context.Finalize: returns the state's bytes as a new array where the original overlays the
  array of words with an array of bytes; on a big-endian machine that would change the words.
- The machine's 64-bit length type in `sha3_Update` is unbounded here; the 32-bit length of `keccak256` is modelled.
- Object lifetimes: the buffer of an aborted write, the replaced stream and timers being destroyed under their handlers.
- `send` and `stop` read `ws_` and the timers from other threads while the event loop may replace them; that race is
  not modelled, each call is one step.
- Posted sends, pings and closes run in any order; the original runs what is posted to one stream in order.
  The theorems therefore count messages from the moment their posted body runs.
- A listener that calls back into the runner has no event of its own; the content of the messages it is handed is not
  modelled, only that reads go on.
- The ids of requests from number 2^31 on are negative on the wire; whether a server answers them is not modelled.
- A pong may arrive at any time, whatever the state of the connection: more than the code can see.
- The attempt counter is unbounded; the original's `int` would overflow after 2^31 failures in a row.
- Outstanding requests are not cleared on reconnect, in the code as in the model; an entry whose response never comes stays.
- Which thread's message is sent first is not the order of nonces: allocating one and sending are separate steps.
- PostRequests.DeliveredOnceWithOwnInfo: the typed callback after `onPostResponse` is not modelled; when its parsing
  throws, the original passes the same message on as well.
- `prepareBody`, `prepareBodyForType` with its vault fallback, and the nonce that two L1 actions embed: field copying.
- UserSigned.PrepareUserSignedActionBody: the nonce is a parameter, its allocation being `Nonce`; the signature over the
  digest is left out. A field missing from the action, which the original reads through a `const` JSON reference without a
  check, fails here.
- Action values are texts, unsigned 64-bit numbers and booleans; JSON's conversions between numbers and booleans are left
  out.
- WireNumbers.FloatToWire: numbers are reals, so the rounding of doubles in the test and in the printing, negative zero (and
  what rounds to it), which the original prints as -0, and the 64-byte buffer, which cuts numbers beyond about 1e53, are
  outside the model.
- Asset ids are unbounded integers; the original's are 32-bit.
- The lazy initialisation of the decoder's table, and its race between threads.
