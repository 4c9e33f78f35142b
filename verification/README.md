# Boost.Redis, verified

A Dafny model of the sans-I/O core of Boost.Redis: the RESP3 push parser and the request printer, the
multiplexer that matches replies to requests over one connection, and the coroutines of
`basic_connection` that drive it over many connections.

Two layers run through the project. Code that changes things in place is a class whose methods are
proved against functions on values (`Parser` against `ParserSpec`, `Multiplexer` against
`MultiplexerSpec`, `Connection` against `ConnectionSpec`). The theorems are about those functions.

## What is proved

**Wire format.** Every well-formed message, streamed strings included, is parsed back to its pre-order
node list from any buffer that starts with its encoding, or fails with the depth error after exactly the
nodes in front of the offending element (`EncodedMessageParses`). Conversely, a finished parse of any bytes
has emitted one such message exactly when the headers it read were in their places: parts of streamed
strings directly inside one, nothing else there, and no child count that wraps (`AcceptedIsOneMessage`).
Parsing a prefix and resuming agrees with parsing at once, for every way the buffer can grow, exactly when
no bulk length wraps (`PrefixStability`). On literal bytes: each of the sixteen type codes is read as its kind,
maps and attributes as pairs (`LineOnTheWire`, `BlobOnTheWire`, `ListOnTheWire`, `PairsOnTheWire`,
`StreamOnTheWire`), and a header is refused exactly in the cases of a table, with the errors of that table
(`RefusedOnTheWire`). The payload of a request decodes to the commands that were pushed (`RequestRoundTrip`),
texts as they are and integers as the same integers (`PushedIsRead`, `PairsAreRead`).

**From bytes to requests.** However a stream is cut into reads, the multiplexer hands the same nodes to the
same adapters and ends in the same state (`ChunkingDoesNotMatter`), and on messages this is what handing
over whole messages one by one does (`ChunkedMessagesAreHandedOver`): every push goes to the receiver and the
k-th other message, whole, to the k-th reply due, exactly when no reply that is needed is due behind a request
that was handed to the writer and expects none (`AnswersFillSlots`). A message keeps its kind and its receiver
whatever happens between two reads of it (`KindIsStable`).

**Whole runs.** `ConnectionSpec` has a step for everything that runs between two suspensions of `exec_op`,
`writer_op`, `reader_op` and `run_op`. Over every sequence of enabled steps, with any number of connection
losses: no wake-up of the writer is lost, no request is lost or completed twice, a request that is not to
be repeated is staged at most once, the write buffer does not change under a write, bytes are accounted for
(`Safety`), and the handshake goes first on every connection (`HelloFirst`). A read of an open connection is
undefined exactly when it meets one of three headers (`ReadIsDefined`). An operation completes with its request
still queued exactly when that request is to be repeated and was told an error or is in flight
(`CompletionLeavesQueued`), so one that is not to be repeated is never queued past its completion
(`CompletedIsRepeated`).

**One request on its own.** For every step of every run there is a function of an element's own fields and flags
that says what becomes of it and how it leaves the queue, and that is what happens (`LifeOfARequest`). From it:
who leaves when a connection is lost, by the two flags, and with which error (`LossOverRuns`); an error once told
is never replaced (`ErrorsAreKept`, `ErrorsForGood`); a request is refused exactly if it wants a connection and
there is none (`SubmittedExactly`); which steps close a connection, and where writer and reader are after each
(`ClosingSteps`, `GivingUp`, `CoroutineSteps`, `CoroutinesFit`). The counters of `usage` are the messages,
commands and bytes of the run (`MessagesAreCounted`, `SentIsRequested`).

**Replies, over whole runs.** What is taken on a connection, followed by what is still due, is what was asked
on it, in every state, exactly when no step stages a request that was answered in part before
(`RepliesAreFifo`). The k-th answer of the server goes to the k-th thing it was asked, for every k and in every
state, exactly when in addition each answer found, when it began, a reply due and a request in front that
expects one (`AnswersReachTheirRequests`). And each answered index of every request was handed the nodes of exactly one
message, exactly when these are regular and no connection was lost in the middle of that reply
(`RepliesAreWholeMessages`).

## How the source is modelled

- Bytes are a `newtype`; `std::size_t` arithmetic that can wrap is written out modulo 2^64.
- The references the code is compared with decide nothing through the functions that model it: `Trees` says what a
  pair is, `Wire` has its own codes and errors as literal bytes, `Lifecycle` and `Outcomes` speak of flags, states
  and literal errors.
- An adapter is a recorder. Whether it refuses a node of one call, and which, is a parameter (`Fault`).
- What the source leaves undefined (a write past `sizes_`, an exception inside `noexcept`) is the outcome
  `Undefined`, `Broken`, `Crashed` or `Crash`, after which nothing is claimed. A run does not read into it;
  `Limits` says exactly when a parse does, and `Reading` that this holds in every state a run can reach.
- A parser state keeps the live part of the object: `sizes_` above the current depth and `bulk_length_`
  without an expected bulk are never read again.
- Shared elements are objects; in the value layer an id stands for the object, and every step of the
  connection keeps the two in agreement (`Shared`). A state also records what the adapters were handed,
  which elements left the queue and as what, and which payloads were staged.
- A read that would grow the buffer beyond what a `std::string` holds fails; this bound (2^63) is the only
  one that runs put on sizes.
- What a run does to replies is logged by the machine itself (`asked`, `answered`) or by observers of the run
  (`WatchAfter`, `TornAfter`), which nothing in the machine depends on.
- Sockets and timers appear as the steps they make possible. A read that succeeds after the connection was
  given up (`ReaderQuits`) needs a `cancel_run` since the launch, because a socket closed before the launch
  fails its first read.
- `has_response` in the source is true for the commands that have no reply; the model follows the code and
  calls it `AnsweredByPush`. The comment on `hello_with_priority` speaks of the front of the waiting
  requests, and that is what `add` does.

## Where the code falls short of its promise

Each has an exact condition, and a lemma at a concrete input or a run from the initial state.

- A bulk length of 2^64-2 or 2^64-1 wraps when the separator is added (`PrefixStability`,
  `WrappedLengthExample`); a map or attribute count of 2^63 or more wraps when doubled
  (`AcceptedIsOneMessage`, `WrappedCountExample`).
- Three header lines lead to undefined steps (`UndefinedParse`, `UndefinedHeaderExamples`,
  `UndefinedDepthExample`), in every reachable state exactly these (`ReadIsDefined`).
- A reply that arrives while a response-less request is staged in front goes to the receiver
  (`ReplyIsRecognised`, `AnswersFillSlots`, `AnswersReachTheirRequests`, `EarlyReplyRun`).
- A request that is repeated after it was answered in part waits for too few replies (`TurnKeepsFifo`,
  `RepliesAreFifo`, `PartlyAnsweredRun`).
- A request whose reply was refused by its adapter stays in the queue if it is to be repeated
  (`RefusedReply`, `RefusedReplyRun`).
- A request in flight that is to be repeated stays in the queue when its operation is cancelled for good, and is
  sent again on the next connection (`CompletionLeavesQueued`, `TerminalCancelRun`).
- A connection lost in the middle of a reply leaves nodes with the adapter of a request that is repeated, in
  front of those of the repeated reply (`RepeatedReply`, `RepliesAreWholeMessages`, `TornReplyRun`).
- `consume_one` also removes the streamed strings that directly follow (`ConsumeOneMessage`,
  `SwallowedStreamExample`).
- Tuple routing needs flat children (`TupleIsRouted`, `NestedChildExample`).

## Model

| member | source | states |
|---|---|---|
| `Bytes.FindSep` | include/boost/redis/resp3/impl/parser.ipp:69-71 | the first position at or after the start where the two separator bytes stand, or none at all |
| `Bytes.FindSepStable` | include/boost/redis/resp3/impl/parser.ipp:69-71 | a separator found in a buffer is the one found in every longer buffer |
| `Resp3.CodesAreInverse` | include/boost/redis/resp3/type.hpp:101-147 | type codes and types determine each other: reading the code of a type gives the type, and only real codes give a type |
| `Wire.CodesAreThose` | include/boost/redis/resp3/type.hpp:101-147 | the sixteen codes of RESP3 as literal bytes, each with its kind, and no other byte is a code |
| `Wire.LineOnTheWire` | include/boost/redis/resp3/impl/parser.ipp:144-170 | literal bytes of every kind of line value, followed by anything, are one node with that text |
| `Wire.BlobOnTheWire` | include/boost/redis/resp3/impl/parser.ipp:85-142 | the same for the three length-prefixed kinds, with any bytes in them |
| `Wire.ListOnTheWire` | include/boost/redis/resp3/impl/parser.ipp:172-199 | arrays, sets and pushes: the header counts the children |
| `Wire.PairsOnTheWire` | include/boost/redis/resp3/type.hpp:89-98 | maps and attributes: the header counts pairs, and the message ends after both halves of the last one |
| `Wire.StreamOnTheWire` | include/boost/redis/resp3/impl/parser.ipp:109-134 | a string in parts, byte by byte |
| `Wire.RefusedOnTheWire` | include/boost/redis/resp3/impl/parser.ipp:102-208 | the first line of a message is refused exactly in the cases of a table on code and content, with its error, before any node |
| `Decimal.PrintedLengthReadsBack` | include/boost/redis/resp3/impl/parser.ipp:18-23 | a printed length in front of anything but a digit is read back as the same number |
| `Decimal.ValueOfDigits` | include/boost/redis/resp3/impl/serialization.ipp:14-17 | the decimal digits printed for a number denote that number |
| `Decimal.NumberIsRead` | include/boost/redis/resp3/impl/parser.ipp:18-23 | any digits, leading zeros included, are read as the number they denote if it has 64 bits; without a digit nothing is read |
| `Decimal.ToStringIs` | include/boost/redis/resp3/serialization.hpp:45-50 | a signed number is printed as its digits, behind a minus sign exactly if it is negative |
| `Decimal.SignedReadsBack` | include/boost/redis/resp3/serialization.hpp:45-50 | printing a signed number and reading it back is the identity |
| `Decimal.ToStringIsInjective` | include/boost/redis/resp3/serialization.hpp:45-50 | different integers are sent as different texts |
| `Parser.Parser.constructor` | include/boost/redis/resp3/impl/parser.ipp:25-35 | a new parser is in the initial state, sentinel 2 |
| `Parser.Parser.Reset` | include/boost/redis/resp3/impl/parser.ipp:27-35 | from any state, the initial state again |
| `Parser.Parser.CommitElem` | include/boost/redis/resp3/impl/parser.ipp:55-62 | the in-place loop closes the levels the recursive definition closes, and says when it would pass level 0 |
| `Parser.Parser.ConsumeImpl` | include/boost/redis/resp3/impl/parser.ipp:102-208 | the effect of one header line on depth, counts and expected bulk is that of the specification, for every type and error |
| `Parser.Parser.ConsumeBlobHeader` | include/boost/redis/resp3/impl/parser.ipp:124-142 | blob headers: expected bulk, opened streamed string, error or undefined step, as specified |
| `Parser.Parser.ConsumeAggregateHeader` | include/boost/redis/resp3/impl/parser.ipp:175-199 | aggregate headers: complete when empty, depth error at the limit, otherwise a new level with the (wrapping) child count |
| `Parser.Parser.ConsumeBulk` | include/boost/redis/resp3/impl/parser.ipp:85-98 | a bulk is taken once the wrapped span is in the buffer, with the value cut at the end of the view |
| `Parser.Parser.Consume` | include/boost/redis/resp3/impl/parser.ipp:64-100 | one step of the object is one step of the specification |
| `Parser.Parse` | include/boost/redis/resp3/parser.hpp:82-99 | the loop over the object ends as the recursive parse does: same nodes, same end, same state, also when the adapter refuses a node |
| `ParserSpec.Consume` | include/boost/redis/resp3/impl/parser.ipp:64-100 | a step never moves back nor past the buffer, an emitted header strictly advances, an error leaves the state |
| `ParserSpec.Parse` | include/boost/redis/resp3/parser.hpp:82-99 | the parse terminates within the buffer and is complete exactly in a done state without an error |
| `Prefixes.PrefixStability` | include/boost/redis/resp3/impl/parser.ipp:64-100 | parsing a prefix and resuming equals parsing at once, for every extension, if and only if no bulk was taken whose length plus two wraps |
| `Prefixes.ResumeAgrees` | include/boost/redis/resp3/parser.hpp:82-99 | the positive half: same nodes, error and state after any extension |
| `Prefixes.WrapDisagrees` | include/boost/redis/resp3/impl/parser.ipp:87-96 | the negative half: after a wrapped length any further byte changes what was read |
| `Prefixes.RefusalCuts` | include/boost/redis/resp3/parser.hpp:82-99 | an adapter that refuses node k ends the parse with its error after nodes 0 to k, and the parser stands where it would have gone on; a refusal not reached changes nothing |
| `Prefixes.NodesAreBoundedByBytes` | include/boost/redis/resp3/parser.hpp:85-96 | a buffer yields at most one node for each byte it holds, so the loop ends |
| `RoundTrip.EncodedMessageParses` | include/boost/redis/resp3/impl/parser.ipp:55-208 | every well-formed message followed by any bytes is parsed to exactly its pre-order nodes and length; beyond the depth limit the depth error comes after exactly the nodes before it; and no length wraps |
| `RoundTrip.ReadBlob` | include/boost/redis/resp3/impl/parser.ipp:85-98 | a length-prefixed value with arbitrary bytes, separators included, comes out unchanged |
| `RoundTrip.ReadStream` | include/boost/redis/resp3/impl/parser.ipp:109-134 | a streamed string below the depth limit is read to its parts and closes its level with the empty part |
| `Acceptance.AcceptedIsOneMessage` | include/boost/redis/resp3/impl/parser.ipp:55-208 | for all bytes: a finished parse emitted the pre-order of one message, streamed strings included, and an unfinished one the beginning of one, if and only if every header is in its place; the beginning is proper unless a length wrapped; the sentinel is then 1 when done, 2 before, with every open level at least 1 |
| `Acceptance.ParseExtends` | include/boost/redis/resp3/impl/parser.ipp:55-208 | from any set of open elements, the nodes emitted next extend them or complete the message, and the counts on the stack stay what they miss; the one exception is a part of wrapped length of which no byte is there |
| `Acceptance.PartArrives` | include/boost/redis/resp3/impl/parser.ipp:109-123 | a part either closes its streamed string whatever count is left, or adds to it |
| `Spines.CommitIsAdd` | include/boost/redis/resp3/impl/parser.ipp:55-62 | the counts on the stack are the missing children of the open aggregates: committing an element is adding a child to the innermost one |
| `Regularity.OrderlyIsRegular` | include/boost/redis/resp3/impl/parser.ipp:102-208 | the headers a parse reads are in their places exactly if the nodes it emits are |
| `Regularity.OnlyRegular` | include/boost/redis/resp3/impl/parser.ipp:172-198 | whatever begins the node list of a message has its nodes in their places |
| `Limits.UndefinedParse` | include/boost/redis/resp3/impl/parser.ipp:115-134 | a parse makes an undefined step if and only if it reads, before its adapter refuses a node, one of three headers: a blob without length, `$?` at the depth limit, an empty part outside every streamed string |
| `Limits.PartialStaysWithin` | include/boost/redis/resp3/impl/parser.ipp:55-100 | a parse that needs more data leaves the sentinel untouched and the message unfinished |
| `Reading.StepStaysMid` | include/boost/redis/connection.hpp:254-330 | every step keeps the parser in front of a message or inside one until the connection is given up |
| `Reading.ReadIsDefined` | include/boost/redis/impl/multiplexer.ipp:84-134 | in every reachable state with an open connection, a reader and bytes: `commit_read` may be called, and is undefined if and only if it reads one of the three headers first |
| `Limits.StepKeepsSentinel` | include/boost/redis/resp3/impl/parser.ipp:55-62 | for all bytes the sentinel stays 2 until the message is complete, so closing levels never goes below level 0 |
| `Limits.WrappedLengthExample` | include/boost/redis/resp3/impl/parser.ipp:87-91 | a blob announced with 2^64-1 bytes is read differently when one more byte has arrived |
| `Limits.WrappedCountExample` | include/boost/redis/resp3/impl/parser.ipp:197-197 | a map announced with 2^63+1 pairs is complete after two children, and its nodes are no message |
| `Limits.UndefinedHeaderExamples` | include/boost/redis/resp3/impl/parser.ipp:115-128 | a blob header without length and an empty part at depth 0 end in an undefined step |
| `Limits.UndefinedDepthExample` | include/boost/redis/resp3/impl/parser.ipp:128-134 | a streamed string in the innermost of five arrays ends in an undefined step |
| `Resumption.ResumeTracks` | include/boost/redis/resp3/parser.hpp:82-99 | over any number of reads, the nodes emitted stay those of what the parser holds open; when the message completes they are one message if and only if they are regular, streamed strings included |
| `Resumption.StuckParse` | include/boost/redis/resp3/impl/parser.ipp:109-134 | after a part of wrapped length none of whose bytes were there, no nodes in their places ever complete the message |
| `Resumption.LeftoversSpoil` | include/boost/redis/resp3/impl/parser.ipp:172-198 | nodes in front of a root make a list that is no message |
| `Commands.PayloadDecodes` | include/boost/redis/resp3/impl/serialization.ipp:12-30 | parsing and consuming a printed pipeline gives back the commands with every argument's bytes |
| `Request.Request.constructor` | include/boost/redis/request.hpp:83-85 | a new request holds no command, its counters are zero |
| `Request.Request.Clear` | include/boost/redis/request.hpp:104-110 | no command is left and the configuration stays |
| `Request.Request.ToBulk` | include/boost/redis/resp3/impl/serialization.ipp:12-21 | appends exactly the bulk string of the data |
| `Request.Request.AddHeader` | include/boost/redis/resp3/impl/serialization.ipp:23-30 | appends exactly the header line of the type and count |
| `Request.Request.CheckCmd` | include/boost/redis/request.hpp:306-315 | with the command's bytes in place the request is again that of all commands pushed: counters, expected replies and HELLO priority agree |
| `Request.Request.Push` | include/boost/redis/request.hpp:146-155 | adds one command with all its arguments and keeps payload, counters and priority those of the commands pushed |
| `Request.Request.PushRange` | include/boost/redis/request.hpp:188-261 | adds one command with one bulk for each element, with or without a key; an empty range adds nothing |
| `Request.Request.PushPairs` | include/boost/redis/request.hpp:188-261 | the same on pairs, two bulks for each, and the header counts both |
| `Request.RequestRoundTrip` | include/boost/redis/request.hpp:306-315 | the payload decodes to exactly the commands pushed, `commands_` is their number and `expected_responses_` counts those outside the SUBSCRIBE family |
| `Request.PushedIsRead` | include/boost/redis/request.hpp:146-261 | the server reads the name, the key and the arguments in order: a text as it is, an integer as the same integer |
| `Request.PairsAreRead` | include/boost/redis/request.hpp:188-261 | the same for pairs, each as its two halves in turn |
| `Request.NamesSpelledOut` | include/boost/redis/impl/request.ipp:13-22 | the commands without a reply are SUBSCRIBE, PSUBSCRIBE and UNSUBSCRIBE, and the priority is that of HELLO |
| `Request.RepliesAreCounted` | include/boost/redis/request.hpp:306-315 | one reply is expected for each command outside that family, and the request goes first exactly if it says HELLO and is configured to |
| `Response.OnlyTheRootIsShallow` | include/boost/redis/resp3/impl/parser.ipp:172-198 | within a parsed message only the root has the depth of the message, except for a streamed string, whose nodes are all deeper |
| `Response.GenericResponse.ConsumeOne` | include/boost/redis/impl/response.ipp:14-39 | erases up to the next root, refuses a list that does not start with a root, does nothing on an error or an empty list |
| `Response.ConsumeOneMessage` | include/boost/redis/impl/response.ipp:14-39 | on any list of messages: a streamed string in front is refused; otherwise the first message goes with the streamed strings right behind it, so it goes alone if and only if the next is no streamed string |
| `Response.ConsumeManyMessages` | include/boost/redis/impl/response.ipp:14-39 | k calls remove exactly the first k messages |
| `Response.SwallowedStreamExample` | include/boost/redis/impl/response.ipp:32-38 | a status followed by an empty streamed string: one call removes both |
| `TupleRouting.TupleAdapter.CountNode` | include/boost/redis/adapter/detail/result_traits.hpp:121-133 | the two counters move as specified |
| `TupleRouting.TupleAdapter.OnNode` | include/boost/redis/adapter/detail/result_traits.hpp:135-155 | the root is checked against the arity, any other node goes to the current element, and an index past the tuple is reported |
| `TupleRouting.FlatIsCounted` | include/boost/redis/adapter/detail/result_traits.hpp:121-133 | the countdown covers exactly the values that are simple or aggregates of simple values |
| `TupleRouting.TupleIsRouted` | include/boost/redis/adapter/detail/result_traits.hpp:121-155 | the root is accepted by exactly the tuples with one element for each child; element i gets exactly the pre-order nodes of child i, no index passes the tuple and the index ends at the arity, if and only if every child is flat |
| `TupleRouting.NestedChildExample` | include/boost/redis/adapter/detail/result_traits.hpp:124-132 | an array in an array in an array is not routed to a tuple of one |
| `Multiplexer.PartitionPoint` | include/boost/redis/impl/multiplexer.ipp:149-154 | the binary search finds the boundary the linear scan finds, on a queue of the right shape |
| `Multiplexer.StablePartition` | include/boost/redis/impl/multiplexer.ipp:176-176 | two parts with the values selected by the condition and its opposite, each in the old order |
| `Multiplexer.PushBack` | include/boost/redis/impl/multiplexer.ipp:71-82 | at the back, or with HELLO priority in front of exactly the requests that wait |
| `Multiplexer.Elem.constructor` | include/boost/redis/impl/multiplexer.ipp:14-26 | a new element waits, with all expected replies due |
| `Multiplexer.Elem.NotifyError` | include/boost/redis/impl/multiplexer.ipp:28-35 | the first error is kept, and the caller is notified |
| `Multiplexer.Elem.CommitResponse` | include/boost/redis/impl/multiplexer.ipp:37-41 | one reply less is due and its size is counted |
| `Multiplexer.Multiplexer.constructor` | include/boost/redis/detail/multiplexer.hpp:191-198 | an empty multiplexer is well formed |
| `Multiplexer.Multiplexer.Add` | include/boost/redis/impl/multiplexer.ipp:71-82 | the new state is the specified one and well formed: queue shape, one place for each element, counters |
| `Multiplexer.Multiplexer.Remove` | include/boost/redis/impl/multiplexer.ipp:43-51 | an element that waits leaves the queue, once; any other stays and nothing changes |
| `Multiplexer.Multiplexer.PrepareWrite` | include/boost/redis/impl/multiplexer.ipp:145-167 | everything that waits is staged, its payloads are appended in order, the counters follow, and the number staged is returned |
| `Multiplexer.Multiplexer.CommitWrite` | include/boost/redis/impl/multiplexer.ipp:53-69 | what was staged is written; response-less requests leave, notified; their number is returned |
| `Multiplexer.StageBatch` | include/boost/redis/impl/multiplexer.ipp:149-164 | the loop over the objects marks exactly those that wait, and returns their payloads in order with the number of commands |
| `Multiplexer.WriteAndRelease` | include/boost/redis/impl/multiplexer.ipp:278-291 | the objects released carry their notification and the rest keep their order |
| `Multiplexer.Multiplexer.CancelWaiting` | include/boost/redis/impl/multiplexer.ipp:169-186 | exactly what waits leaves with an error |
| `Multiplexer.Multiplexer.CancelOnConnLost` | include/boost/redis/impl/multiplexer.ipp:188-222 | once for each connection: what does not survive leaves with an error, the rest waits again in order |
| `Multiplexer.AbortPerishing` | include/boost/redis/impl/multiplexer.ipp:195-219 | the objects dropped carry the error and their notification; those kept wait again, in order |
| `Multiplexer.Multiplexer.Reset` | include/boost/redis/impl/multiplexer.ipp:136-143 | buffers, parser and flags are those of a new connection, the queue stays |
| `Multiplexer.Multiplexer.Append` | include/boost/redis/connection.hpp:265-281 | bytes from the socket go behind those in the read buffer |
| `Multiplexer.Multiplexer.OnFinishParsing` | include/boost/redis/impl/multiplexer.ipp:224-239 | the message's bytes are counted as push or reply and leave the buffer, the parser starts anew |
| `Multiplexer.Multiplexer.CommitRead` | include/boost/redis/impl/multiplexer.ipp:84-134 | classification, parsing, delivery, completion and errors are as specified, and the state stays well formed |
| `Invariants.AddKeeps` | include/boost/redis/impl/multiplexer.ipp:71-82 | the queue stays written, staged, waiting; exactly the new element is accounted for in addition |
| `Invariants.AddShape` | include/boost/redis/impl/multiplexer.ipp:71-82 | no request moves ahead of one that was staged or written, even with HELLO priority |
| `Invariants.RemoveKeeps` | include/boost/redis/impl/multiplexer.ipp:43-51 | the element moves from the queue to the departures; every sum and count stays |
| `Invariants.PrepareWriteKeeps` | include/boost/redis/impl/multiplexer.ipp:145-167 | staging keeps shape, accounts and sums |
| `Invariants.CommitWriteKeeps` | include/boost/redis/impl/multiplexer.ipp:53-69 | every element is in the queue or departed exactly once, and those released expected no reply and were notified once |
| `Invariants.CancelWaitingKeeps` | include/boost/redis/impl/multiplexer.ipp:169-186 | the same for cancelling: all that left carry an error |
| `Invariants.CancelOnConnLostKeeps` | include/boost/redis/impl/multiplexer.ipp:188-222 | the same for the loss of the connection |
| `Invariants.CommitReadKeeps` | include/boost/redis/impl/multiplexer.ipp:84-134 | a read keeps shape and accounts; received replies and bytes stay the sums over all elements |
| `Framing.ChunkingDoesNotMatter` | include/boost/redis/impl/multiplexer.ipp:84-134 | for every way to cut a stream into reads: same deliveries in the same order to the same slots, same final state as in one read |
| `Framing.FinishedReadIgnoresRest` | include/boost/redis/impl/multiplexer.ipp:224-239 | a read that ends a message does the same whatever bytes follow it |
| `Messages.ReadsOneMessage` | include/boost/redis/impl/multiplexer.ipp:84-134 | one read on a buffer that starts with a message hands over that message and leaves the rest |
| `Messages.ChunkedMessagesAreHandedOver` | include/boost/redis/impl/multiplexer.ipp:84-134 | any list of messages, cut anywhere: buffers, resumption and reclassification do what handing over whole messages one by one does |
| `Answers.HandOverOne` | include/boost/redis/impl/multiplexer.ipp:110-134 | a message that is not a push is taken as a reply exactly if a slot is due within reach, goes whole to the first one and uses it up |
| `Answers.HandedAsMeant` | include/boost/redis/impl/multiplexer.ipp:241-276 | whole messages go where they are meant, pushes to the receiver and the k-th other one to the k-th slot due, if and only if no slot they need stands behind a request that expects no reply; the slots answered are used up |
| `Answers.AnswersFillSlots` | include/boost/redis/impl/multiplexer.ipp:84-134 | the same for their bytes, cut into reads in any way |
| `Answers.MeantAt` | include/boost/redis/impl/multiplexer.ipp:110-134 | what is meant, index by index: without pushes, message k goes to slot k with all its nodes, after those of the messages before it |
| `Correlation.ReplyTakesHeadSlot` | include/boost/redis/impl/multiplexer.ipp:110-134 | a reply goes with all its nodes to the first slot due, which is used up exactly when the reply is complete; a push leaves all slots |
| `Correlation.ReplyIsRecognised` | include/boost/redis/impl/multiplexer.ipp:241-276 | a message not of the push type is taken as a reply if and only if a slot is due and the request in front expects a reply |
| `Correlation.EarlyReplyExample` | include/boost/redis/impl/multiplexer.ipp:265-268 | SUBSCRIBE and PING staged, a reply arrives before the write ends: the receiver gets it and PING still waits |
| `Correlation.StagingAppendsSlots` | include/boost/redis/impl/multiplexer.ipp:145-167 | staging puts the batch's slots behind those due; they are what the server will send if and only if no request of the batch was answered in part |
| `Correlation.AddKeepsSlots` | include/boost/redis/impl/multiplexer.ipp:71-82 | adding a request changes no slot that is due |
| `Correlation.RemoveKeepsSlots` | include/boost/redis/impl/multiplexer.ipp:43-51 | removing one changes none |
| `Correlation.CancelWaitingKeepsSlots` | include/boost/redis/impl/multiplexer.ipp:169-186 | cancelling what waits changes none |
| `Correlation.CommitWriteKeepsSlots` | include/boost/redis/impl/multiplexer.ipp:53-69 | the end of a write changes none, although requests leave |
| `Correlation.ConnLostDropsSlots` | include/boost/redis/impl/multiplexer.ipp:188-222 | after a loss no slot is due |
| `Classification.ReadBegins` | include/boost/redis/impl/multiplexer.ipp:86-112 | a read that asks for more leaves a message that has begun, for the receiver it began with |
| `Classification.KindIsStable` | include/boost/redis/impl/multiplexer.ipp:86-112 | under every interleaving of adding, removing, cancelling, staging, end of write and arrival, an incomplete message keeps its kind, its reply slot and the parser state |
| `ConnectionLoss.SurvivorsStay` | include/boost/redis/impl/multiplexer.ipp:188-222 | exactly the requests their flags allow stay, in order and waiting; the others leave aborted; a second call changes nothing |
| `ConnectionLoss.LateCommitWrite` | include/boost/redis/connection.hpp:217-226 | a write that completes after the loss marks and releases nothing |
| `ConnectionLoss.NextBatchIsRetained` | include/boost/redis/impl/multiplexer.ipp:136-167 | with no further additions the next batch is exactly the survivors' payloads in order |
| `ConnectionLoss.RefusedReply` | include/boost/redis/impl/multiplexer.ipp:120-123 | after an adapter's error and the loss that follows, the request is out of the queue if and only if `cancel_if_unresponded`; otherwise it waits to be sent again, with its error; either way its error is that of the refused reply unless it had one before |
| `Histories.ReadFollows` | include/boost/redis/impl/multiplexer.ipp:37-41 | a complete reply is counted for the request in front and for no other |
| `Histories.StagedOncePrepare` | include/boost/redis/impl/multiplexer.ipp:145-161 | staging keeps one-shot requests staged at most once, because what waits of them was never staged |
| `Histories.StagedBytes` | include/boost/redis/impl/multiplexer.ipp:155-163 | from an empty buffer, the bytes written are the payloads logged, and `bytes_sent` counts exactly them |
| `Connection.Connection.constructor` | include/boost/redis/connection.hpp:502-515 | a new connection is in the initial state of the machine |
| `Connection.Connection.Exec` | include/boost/redis/connection.hpp:122-140 | no element is made exactly if the request wants a connection and there is none; otherwise it is queued and a parked writer is woken unless a write is in progress |
| `Connection.Connection.WriterTurn` | include/boost/redis/connection.hpp:191-206 | stages everything that waits and writes it, or parks if there was nothing |
| `Connection.Connection.WriteCompleted` | include/boost/redis/connection.hpp:208-227 | an error gives up the connection; otherwise the write is committed and the writer goes on unless the connection was closed |
| `Connection.Connection.TimerFired` | include/boost/redis/connection.hpp:229-239 | a woken writer stops on a closed connection, otherwise it stages again |
| `Connection.Connection.Receive` | include/boost/redis/connection.hpp:265-281 | bytes that arrive go behind those in the read buffer and are counted for this connection |
| `Connection.Connection.ReadMessage` | include/boost/redis/connection.hpp:303-329 | a read error ends reader and connection; a complete reply is logged under its slot |
| `Connection.Connection.ReadFailed` | include/boost/redis/connection.hpp:285-291 | a failed read gives up the connection and ends the reader |
| `Connection.Connection.ReaderQuits` | include/boost/redis/connection.hpp:293-300 | a reader that finds the connection closed ends and changes nothing else |
| `Connection.Connection.Connected` | include/boost/redis/connection.hpp:372-382 | between two launches the transport may come up; nothing else changes |
| `Connection.Connection.Disconnected` | include/boost/redis/connection.hpp:740-745 | between two launches the transport may go away without any request being touched |
| `Connection.Connection.Greet` | include/boost/redis/connection.hpp:400-412 | reset, then HELLO and the first ping are queued, in this order |
| `Connection.Connection.Launch` | include/boost/redis/connection.hpp:400-422 | then reader and writer start: the state is that of the machine after a launch |
| `Connection.Connection.CancelRun` | include/boost/redis/connection.hpp:777-783 | closes, wakes a parked writer, and gives up the requests that do not survive |
| `Connection.Connection.Cancel` | include/boost/redis/connection.hpp:715-715 | giving up the connection at any moment is a step of the machine and keeps its invariant |
| `Connection.Connection.CancelExec` | include/boost/redis/connection.hpp:711-711 | what waits is cancelled, everything else stays |
| `Connection.Connection.ExecCancelled` | include/boost/redis/connection.hpp:146-172 | for any element this connection made: an operation with an error completes with it; one that waits is taken out of the queue, where it always is, and is aborted; one in flight costs the connection if the cancellation is terminal and goes on otherwise |
| `Connection.Connection.ExecFinished` | include/boost/redis/connection.hpp:142-174 | a notified operation completes with the error of its element and no size, or with the bytes of its replies, whether the element is still queued or left |
| `Connection.Connection.Shared` | include/boost/redis/connection.hpp:116-120 | the object an operation holds is at every moment the element the machine knows by its id: queued, or recorded on leaving and not changed since |
| `Runs.WaitingIsQueued` | include/boost/redis/connection.hpp:151-152 | an unfinished operation whose element waits without an error has it in the queue exactly once, so `remove` deletes one entry |
| `Runs.ReplyHasFront` | include/boost/redis/impl/multiplexer.ipp:110-115 | the assertions before every parse of a reply hold, complete or not: there is a request in front, handed to the writer, that waits for a reply; and the result says which kind was read |
| `Runs.HelloFirst` | include/boost/redis/connection.hpp:400-422 | on every launch from a reachable state the first write is the HELLO payload, then all queued payloads in queue order, then the ping |
| `Safety.RunKeepsInv` | include/boost/redis/connection.hpp:122-330 | the invariant of books and coroutines holds after every run of enabled steps |
| `Safety.NoLostWakeUp` | include/boost/redis/connection.hpp:191-239 | in every reachable state a parked writer with no wake under way has an open connection, an empty write buffer and nothing that waits |
| `Safety.AtMostOnce` | include/boost/redis/impl/multiplexer.ipp:145-161 | over any number of connections a request with `cancel_if_unresponded` is put into the write buffer at most once, and `bytes_sent` is the length of all payloads staged |
| `Safety.Conservation` | include/boost/redis/impl/multiplexer.ipp:28-51 | every id ever given is in the queue or among the departures exactly once; each exit means what it says; a success is signalled once, after one complete reply for each index in order; `remove` never misses |
| `Safety.QueueShape` | include/boost/redis/impl/multiplexer.ipp:71-82 | in every reachable state the queue is written, staged, waiting, and the linear scan finds the boundary |
| `Safety.UsageConservation` | include/boost/redis/impl/multiplexer.ipp:224-239 | replies and reply bytes are the sums over all requests; bytes received on a connection are those consumed plus those in the buffer |
| `Safety.WriteBufferIsStable` | include/boost/redis/connection.hpp:191-206 | whatever runs while a write is in progress, its buffer does not change and the writer stays in it |
| `Completion.StepSettled` | include/boost/redis/connection.hpp:122-330 | every step keeps: whoever was told an error or has completed and is still queued may be sent again |
| `Completion.CompletedIsRepeated` | include/boost/redis/detail/multiplexer.hpp:94-94 | over every run: a request with `cancel_if_unresponded` is not in the queue once its operation has completed or was told an error |
| `Completion.CompletionLeavesQueued` | include/boost/redis/connection.hpp:142-174 | in every reachable state: the step that completes an operation leaves its element queued if and only if it is queued, carries an error or is in flight, and may be sent again |
| `Completion.FinishedForGood` | include/boost/redis/connection.hpp:142-174 | over every run completed operations stay completed, and only a cancellation or a notification completes one |
| `Lifecycle.LifeOfARequest` | include/boost/redis/impl/multiplexer.ipp:28-222 | in every reachable state, for every step: each queued element becomes what its own fields and flags say and is queued or gone as they say; one that left stays as it was; none is in two places |
| `Lifecycle.StepFate` | include/boost/redis/connection.hpp:122-330 | the same for one element and one step of a state with the invariant |
| `Outcomes.LossOnFlags` | include/boost/redis/impl/multiplexer.ipp:188-222 | a request leaves the queue if and only if it waits with `cancel_on_connection_lost` or is in flight with `cancel_if_unresponded`, as aborted and with its first error; any other is queued once and waits |
| `Outcomes.LossOverRuns` | include/boost/redis/connection.hpp:777-783 | the same for every step of every run that gives up the connection; the first error is that of the reply just refused or `operation_aborted` |
| `Outcomes.ClosingSteps` | include/boost/redis/connection.hpp:146-330 | which steps open and close the connection, for every step |
| `Outcomes.GivingUp` | include/boost/redis/impl/multiplexer.ipp:188-194 | the first closing step after a launch gives the connection up, and only a launch takes that back |
| `Outcomes.ErrorsAreKept` | include/boost/redis/impl/multiplexer.ipp:28-36 | no step changes an error that was told; the first one is that of the refused reply of the request in front, or `operation_aborted` of a request that leaves |
| `Outcomes.ErrorsForGood` | include/boost/redis/impl/multiplexer.ipp:28-36 | over any number of steps an error once told stays |
| `Outcomes.SubmittedExactly` | include/boost/redis/connection.hpp:122-140 | a request is refused if and only if it wants a connection and there is none; otherwise exactly this request, waiting, is queued in addition, and a parked writer is woken if no write is prepared |
| `Outcomes.DefaultRequest` | include/boost/redis/request.hpp:48-77 | with the default configuration a request is always accepted and leaves with the connection, waiting or in flight |
| `Outcomes.CancelledExactly` | include/boost/redis/connection.hpp:146-172 | a cancelled operation completes if and only if its element has an error or waits or the cancellation is terminal; otherwise nothing changes |
| `Outcomes.CompletedExactly` | include/boost/redis/connection.hpp:142-174 | which operations a step completes, for every step |
| `Outcomes.CoroutineSteps` | include/boost/redis/connection.hpp:122-330 | where the writer is and whether the reader runs after each step, from the flags and from whether anyone waits |
| `Outcomes.CoroutinesFit` | include/boost/redis/connection.hpp:191-330 | over every run: an open connection with a reader has a writer and was not given up; without a reader, or given up, nothing is in flight |
| `Outcomes.MessagesAreCounted` | include/boost/redis/impl/multiplexer.ipp:224-239 | the two message counters are the numbers of complete pushes and replies of the run |
| `Sending.PrepareCounts` | include/boost/redis/impl/multiplexer.ipp:136-164 | the payloads of all that waits go behind the buffer in order; bytes are counted for the whole buffer, commands for the batch |
| `Sending.SentIsRequested` | include/boost/redis/impl/multiplexer.ipp:136-164 | over every run: what was written is whole payloads of submitted requests, and bytes and commands counted are theirs |
| `ReplyOrder.TurnKeepsFifo` | include/boost/redis/impl/multiplexer.ipp:217-219 | staging keeps the order of replies if and only if nothing that waits was answered in part on an earlier connection |
| `ReplyOrder.StepKeepsFifo` | include/boost/redis/impl/multiplexer.ipp:136-222 | a step keeps the replies in order if and only if it does not stage a request that was answered in part |
| `ReplyOrder.RepliesAreFifo` | include/boost/redis/impl/multiplexer.ipp:110-134 | over every run, whatever is submitted: in every state of it, replies taken followed by slots due are what the server was asked, in order, if and only if no step stages a request answered in part |
| `ReplyOrder.RepliesAreFifoFromStart` | include/boost/redis/impl/multiplexer.ipp:22-25 | the same for every run from the initial state |
| `ReplyOrder.RepeatableIsFifo` | include/boost/redis/request.hpp:62-68 | a condition on requests alone: not repeated, or one reply at most, and the replies are in order throughout |
| `ReplyOrder.PartlyAnsweredExample` | include/boost/redis/impl/multiplexer.ipp:217-219 | two commands, one answered, connection lost: both are sent again but one reply is waited for, under the second index |
| `WholeReplies.ReplyReadWhole` | include/boost/redis/impl/multiplexer.ipp:110-134 | for any request: a read of a reply extends what the slot in front holds and nothing else; complete, it is one message exactly if regular and not torn; refused, only that slot is left open |
| `WholeReplies.LossWhole` | include/boost/redis/impl/multiplexer.ipp:188-222 | after a loss exactly the slot being read, if it got anything, holds nodes of no complete reply; requests sent only once that survive hold none |
| `WholeReplies.RepeatedReply` | include/boost/redis/impl/multiplexer.ipp:217-219 | for any request and any number of reads: the slot is one message when its reply is complete if and only if it is regular and lost connections left nothing in it |
| `WholeReplies.RepliesAreWholeMessages` | include/boost/redis/impl/multiplexer.ipp:84-134 | over every run and for every request: an answered index was handed the nodes of exactly one message if and only if they are regular and no connection was lost in the middle of that reply; with `cancel_if_unresponded` none was; a completed request was answered at every index |
| `Matching.FirstReadDecides` | include/boost/redis/impl/multiplexer.ipp:241-276 | where an answer goes is decided by what its first read finds: a slot due and a request in front that expects a reply |
| `Matching.AnswersReachTheirRequests` | include/boost/redis/impl/multiplexer.ipp:84-134 | over every run and in every state of it: replies taken and due are in order what was asked, and the k-th answer of the connection was taken for the k-th of it, if and only if no step stages a request answered in part and each answer found a slot due and a request in front that expects a reply |
| `Matching.AnswersTaken` | include/boost/redis/impl/multiplexer.ipp:84-134 | after any run, in order or not: the k-th answer was taken for the k-th thing asked, for all k, if and only if each found its slot and what was taken begins what was asked |
| `Witnesses.EarlyReplyRun` | include/boost/redis/impl/multiplexer.ipp:265-268 | a run from the initial state in which the reply to PING goes to the receiver because SUBSCRIBE is in front |
| `Witnesses.PartlyAnsweredRun` | include/boost/redis/impl/multiplexer.ipp:217-219 | a run in which a request answered in part is sent again and the replies are out of order |
| `Witnesses.RefusedReplyRun` | include/boost/redis/impl/multiplexer.ipp:120-123 | a run in which a request whose caller was told an error waits to be sent again |
| `Witnesses.TornReplyRun` | include/boost/redis/impl/multiplexer.ipp:217-219 | a run in which a request completes with a node too many in its slot |
| `Witnesses.TerminalCancelRun` | include/boost/redis/connection.hpp:152-159 | a run in which an operation in flight is cancelled for good and completes, and the next connection stages its request again |

## Left out

- Asio: sockets, TLS, resolver, connector, channels, completion tokens and time-outs are not part of this model; only which step may follow which is.
- The health checker's and the handshaker's own decisions: they appear as requests that are submitted and as `CancelRun`.
- Conversions of nodes to C++ types and containers, and the assignment of adapters inside the tuple.
- `resp3::detail::deserialize`: its loop is that of `parse` on a buffer that holds one message.
- `get_suggested_buffer_growth`, logging, `to_string(type)`, the error category and the choice of HELLO arguments.
- While a read is pending the read buffer of the source already has room for what may come; byte conservation is stated at the points between steps, where the buffer holds what came.
- Back-pressure of the receive channel: between two reads of the reader any other step may happen.
- Counters of `usage` and of elements are unbounded numbers; only lengths and counts read from the wire wrap.
- A request is a value once it is submitted; changing it while it is queued is not modelled.
