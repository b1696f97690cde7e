# Verified models of a Go backend examples repository

This project models the parts of the repository whose correctness is not evident from reading one
function, and proves properties that span them. Verify it with `dafny verify dfyconfig.toml`.

**RESP3 codec.** The repository writes the codec twice: over a sealed interface and over a tagged
record. `Resp3.dfy` gives the meaning of both directions as functions: `Canonical`, what `Serialize`
writes, and `Decode`, what parsing the bytes that remain answers: `Ok` with a value and the number
of bytes taken, `Incomplete` (`ErrIncomplete`) or `Malformed` (any other error). `Reader.dfy` and
`SealedCodec.dfy` hold the code itself as methods over a cursor, proved to compute these functions.
`Grammar.dfy` defines independently which byte strings encode which values, and proves the parser an
exact recognizer of that grammar whose definite answers never change as input grows. `Spelling.dfy`
spells out what is written in ASCII and which lines are refused. `Codec.dfy` and `Sizes.dfy` derive
the laws, and `Permanent.dfy` finds the inputs on which `Incomplete` is final: a payload followed by
something other than CR LF is reported as incomplete, and no more data can change that.
`Tagged.dfy`, `TaggedCodec.dfy` and `TaggedLaws.dfy` do the same for the tagged record, which is
factored differently, and prove that both codecs agree on every value and on every input.

A value is *well formed* when line values contain no newline, a verbatim format contains no colon, an
attribute has an inner value, and lengths and counts fit Go's int; `Codec.RoundTripIff` proves that
these are exactly the values that survive a round trip. The code is more lenient than the RESP3
specification: a line may end with a bare newline, a count or an integer may have a plus sign or
leading zeros, a null's line may hold anything and a verbatim format may have any length. The models
follow the code.

**Transactions.** `Retry.dfy` models the retry loop over an effectful closure, with the state it
changes and everything it meets at each attempt as parameters. `Transactions.dfy` models
`BeginTxFunc`, the transaction manager and the unit of work over a database with open transactions,
where other clients may commit between attempts and beginning, any statement, or committing may fail.
`Users.dfy` adds routing by context and a result captured across attempts; `Orders.dfy` and
`Checkout.dfy` the order state machine and the checkout around it. Properties are proved over whole
runs of calls.

**Logging.** `Flatten.dfy` and `Handlers.dfy` model attribute flattening over Go slices that share
backing arrays, and the tree of handlers derived by `WithAttrs` and `WithGroup`; `Trails.dfy` says by
position which leaves are printed, in which order and under which keys. `Bag.dfy` and
`Tracing.dfy` model the canonical log bag and every interleaving of the separately locked updates
that concurrent query traces make.

Assumptions, each a parameter or a hypothesis of the theorems that use it:

- The text of finite floats is a parameter; `Floats.Faithful` asks that formatting and then parsing
  gives the float back, without a newline and apart from the three special words.
- Positions and sums of a position and a count are mathematical integers, so the sum of the position
  and a declared length is taken to fit Go's int.
- Transactions run one after another (serializable isolation), and a failed commit rolls back.
- In `Tracing`, other code leaves the tracer's five fields alone, and `CountsAgree` speaks of fewer
  than 2^63 queries, so that its counters have not wrapped around.
- In `Orders` and `Checkout`, other clients change orders only as a completed order would, and record
  only payments that were authorized.

## Model

| member | source | states |
|---|---|---|
| Decimal.FormatIntParses | enums/sealed_interface/resp3.go:67 | the decimal text of an integer parses back to it exactly when it fits 64 bits, and never contains a newline |
| Decimal.FormatIntShortest | enums/sealed_interface/resp3.go:176 | the canonical text of a number is no longer than any text the parser accepts for it |
| Decimal.ParseIntIff | enums/sealed_interface/resp3.go:176 | a text is accepted, as a given 64-bit integer, exactly when it is an optional sign, any number of zeros and the canonical digits of a magnitude that only a minus sign negates |
| Decimal.FormatNatIff | enums/sealed_interface/resp3.go:97 | the canonical text of a length or count is the one digit string with that sum of place values and no leading zero |
| Resp3.ConstantsAreAscii | enums/sealed_interface/resp3.go:158-254 | the type markers, line ends and special words are these characters |
| Spelling.LinesSpelled | enums/sealed_interface/resp3.go:65-76 | every kind written on one line is spelled as these ASCII characters around its text |
| Spelling.DoublesSpelled | enums/sealed_interface/resp3.go:127-138 | the infinities and NaN are written as inf, -inf and nan, finite floats as the library formats them |
| Spelling.BlobsSpelled | enums/sealed_interface/resp3.go:77-102 | length-prefixed kinds are marker, length, CR LF, payload and CR LF |
| Spelling.AggregatesSpelled | enums/sealed_interface/resp3.go:104-113 | arrays, sets and pushes are marker, count and the items' encodings joined in order |
| Spelling.PairsSpelled | enums/sealed_interface/resp3.go:86-125 | maps and attributes are marker, count and the encodings of key, value, key, value and so on, an attribute followed by its inner value if it has one |
| Spelling.TaggedItemsSpelled | enums/tagged_union/resp3.go:150-181 | the same for tagged records, of any kinds: one of an unknown kind is counted by what holds it and adds no text |
| Spelling.TaggedPairsSpelled | enums/tagged_union/resp3.go:156-191 | the same for tagged maps and attributes |
| Spelling.LinesRead | enums/sealed_interface/resp3.go:159-215 | a value on one line is incomplete exactly until a newline comes |
| Spelling.LineAnswers | enums/sealed_interface/resp3.go:171-215 | a finished line is a boolean exactly for t and f, an integer exactly for an integer's text, always a null, and otherwise malformed |
| Spelling.VerbatimNeedsColon | enums/sealed_interface/resp3.go:332-346 | a verbatim string whose payload has no colon is malformed |
| Spelling.MarkersOnly | enums/sealed_interface/resp3.go:153-266 | the empty input is incomplete and any first byte but the fifteen markers is malformed |
| Framing.ReadLineIff | enums/sealed_interface/resp3.go:269-282 | reading a line succeeds, with a given text and end, exactly when the consumed bytes have their only newline at the end; one trailing carriage return is dropped |
| Framing.LineTextIff | enums/sealed_interface/resp3.go:276-279 | the bytes of a line read as a text exactly when they are that text, without newline, and CR LF, or that text, not ending in a carriage return, and a bare newline |
| Framing.IncompleteLineIff | enums/sealed_interface/resp3.go:269-297 | a line and a count are incomplete exactly while no newline has come, and a line is never malformed |
| Framing.ReadCountIff | enums/sealed_interface/resp3.go:284-297 | reading a count succeeds exactly on a line whose text is a non-negative number in range |
| Framing.ReadBlobSound | enums/sealed_interface/resp3.go:320-330 | what reading a blob consumes is a count line, exactly that many bytes and CR LF |
| Framing.ReadBlobComplete | enums/sealed_interface/resp3.go:320-330 | every such string of bytes is read, to its end, as that payload |
| Framing.ReadBlobExtends | enums/sealed_interface/resp3.go:299-318 | a definite answer about a blob does not change when more bytes arrive |
| Framing.ReadBytesStuckIff | enums/sealed_interface/resp3.go:299-318 | a payload with bytes after it that rule out CR LF is reported incomplete whatever follows; in every other case there are bytes that complete it |
| Framing.CutIff | enums/sealed_interface/resp3.go:341-345 | splitting a verbatim payload gives format and text exactly when they rejoin around a colon and the format has none |
| ByteReader.Reader.ReadLine | enums/sealed_interface/resp3.go:269-282 | the method answers and moves the position as the line reader on the remaining bytes says |
| ByteReader.Reader.ReadCount | enums/tagged_union/resp3.go:318-331 | the same for counts, with a number out of range or negative reported as malformed |
| ByteReader.Reader.ReadBytes | enums/sealed_interface/resp3.go:299-310 | the same for payloads |
| ByteReader.Reader.ConsumeCRLF | enums/sealed_interface/resp3.go:312-318 | consumes CR LF when the remaining bytes start with it and otherwise reports incomplete data and stays |
| SealedCodec.Serialize | enums/sealed_interface/resp3.go:65-92 | the mutually recursive serializers return the canonical encoding |
| SealedCodec.SerializeAggregate | enums/sealed_interface/resp3.go:104-113 | the loop writes marker, count and every item's encoding in order |
| SealedCodec.SerializePairs | enums/sealed_interface/resp3.go:115-125 | the loop writes marker, count and every key and value in order |
| SealedCodec.Parse | enums/sealed_interface/resp3.go:142-145 | returns the decoded value, ErrIncomplete or another error, as Decode classifies the input |
| SealedCodec.ParseValue | enums/sealed_interface/resp3.go:152-267 | from any position, the answer is Decode's on the remaining bytes and the position moves by exactly the bytes used |
| SealedCodec.ParseVerbatimString | enums/sealed_interface/resp3.go:332-346 | a verbatim payload is cut at its first colon, and is malformed without one |
| SealedCodec.ParseItems | enums/sealed_interface/resp3.go:348-362 | the loop collects as many values as the count says, or stops at the first failure with that failure |
| SealedCodec.ParsePairs | enums/sealed_interface/resp3.go:364-382 | the same for key and value pairs |
| Grammar.DecodeIff | enums/sealed_interface/resp3.go:152-382 | parsing returns a value and k bytes exactly when the first k bytes encode that value in the grammar: sound and complete |
| Grammar.DecodeSound | enums/sealed_interface/resp3.go:152-267 | the bytes consumed encode the value returned |
| Grammar.DecodeComplete | enums/sealed_interface/resp3.go:152-267 | every encoding of a value parses to that value and to its very end |
| Grammar.DecodeExtends | enums/sealed_interface/resp3.go:152-382 | success stays the same success and malformed stays malformed as bytes are added; only incomplete may change |
| Grammar.EncodesUnambiguous | enums/sealed_interface/resp3.go:152-382 | of two encodings one of which is a prefix of the other, both are the same bytes and encode the same value |
| Codec.CanonicalEncodes | enums/sealed_interface/resp3.go:65-125 | what is written for a well-formed value is an encoding of it |
| Codec.EncodesWellFormed | enums/sealed_interface/resp3.go:254-282 | only well-formed values have encodings |
| Codec.RoundTrip | enums/sealed_interface/resp3.go:65-382 | a well-formed value of any depth, written and followed by any bytes, is read back and the reader stops where those bytes begin |
| Codec.RoundTripIff | enums/sealed_interface/resp3.go:65-382 | the round trip holds exactly on the well-formed values |
| Codec.NormalizerIdempotent | enums/sealed_interface/resp3.go:65-382 | parsing an accepted input and writing it again keeps its value, and doing so once more changes nothing |
| Codec.PrefixIncomplete | enums/sealed_interface/resp3.go:269-382 | every shorter prefix of an accepted input is incomplete, never malformed and never another value |
| Codec.CanonicalPrefixCode | enums/sealed_interface/resp3.go:65-125 | no well-formed value's encoding is a prefix of another's, so serializing is injective |
| Codec.DecodeAllIff | enums/sealed_interface/resp3.go:348-361 | reading values until the input ends gives a list exactly when the input is encodings of its values back to back |
| Codec.DecodeAllSplits | enums/sealed_interface/resp3.go:104-113 | any well-formed values written back to back are split into exactly those values |
| Codec.ChunkingIrrelevant | enums/sealed_interface/resp3.go:140-145 | a reader that parses again on every chunk gives the answer for the whole stream, however it is cut |
| Permanent.StuckIff | enums/sealed_interface/resp3.go:299-382 | ErrIncomplete can be final: for every input, the answer is incomplete under all continuations exactly when the parser, at whatever depth, has reached a payload with wrong bytes where CR LF should be |
| Permanent.StuckStays | enums/sealed_interface/resp3.go:312-318 | on such an input the answer stays incomplete whatever follows |
| Permanent.Continue | enums/sealed_interface/resp3.go:152-382 | every other incomplete input has a continuation on which the answer is definite |
| Permanent.NestedStuck | enums/sealed_interface/resp3.go:313-314 | an array holding a one-byte bulk string followed by XX is incomplete under all continuations |
| Sizes.DecodeBounds | enums/sealed_interface/resp3.go:152-382 | a parsed value took at least two bytes for each value in it, whatever counts were declared, and writing a double-free one back adds at most one byte for each |
| Sizes.EncodingBounds | enums/sealed_interface/resp3.go:284-382 | the same bounds for every encoding in the grammar |
| TaggedCodec.SerializeTo | enums/tagged_union/resp3.go:112-164 | appends exactly the value's encoding to the shared builder and keeps what it held; an unknown kind appends nothing |
| TaggedCodec.WriteAggregate | enums/tagged_union/resp3.go:174-181 | appends marker, count and every item in order |
| TaggedCodec.WritePairs | enums/tagged_union/resp3.go:183-191 | appends marker, count and every key and value in order |
| TaggedCodec.WriteBlob | enums/tagged_union/resp3.go:166-172 | appends marker, length, payload and terminator |
| TaggedCodec.SerializeTagged | enums/tagged_union/resp3.go:106-110 | returns what serializing into an empty builder leaves |
| TaggedCodec.ParseTagged | enums/tagged_union/resp3.go:208-211 | returns the value, ErrIncomplete or another error, as ReadTagged classifies the input |
| TaggedCodec.ParseTaggedValue | enums/tagged_union/resp3.go:218-301 | answers and moves the position as ReadTagged on the remaining bytes says |
| TaggedCodec.ParseBlobAs | enums/tagged_union/resp3.go:354-364 | a blob of the given kind, with only its text set |
| TaggedCodec.ParseVerbatim | enums/tagged_union/resp3.go:366-380 | a verbatim string cut at its first colon, malformed without one |
| TaggedCodec.ParseAggregateAs | enums/tagged_union/resp3.go:382-396 | the loop collects the items of an aggregate of the given kind |
| TaggedCodec.ParsePairsOf | enums/tagged_union/resp3.go:398-412 | the loop collects a given number of pairs |
| TaggedCodec.ParseMap | enums/tagged_union/resp3.go:414-424 | a count and that many pairs |
| TaggedCodec.ParseAttribute | enums/tagged_union/resp3.go:426-440 | a count, that many pairs and the value they describe |
| TaggedLaws.WrittenCanonical | enums/tagged_union/resp3.go:112-191 | a tagged value of known kinds is written as the sealed value it stands for |
| TaggedLaws.ParsersAgree | enums/tagged_union/resp3.go:218-440 | on every byte string both parsers give the same class of answer and end at the same position, and the tagged value is the image of the sealed one |
| TaggedLaws.AbsEmbed | enums/tagged_union/resp3.go:86-104 | the constructors give values of known kinds in normal form that stand for the sealed value they were made from |
| TaggedLaws.EmbedAbs | enums/tagged_union/resp3.go:86-104 | a known value in normal form is the one the constructors make |
| TaggedLaws.TaggedRoundTrip | enums/tagged_union/resp3.go:106-440 | a well-formed tagged value, whatever its irrelevant fields hold, is read back with those fields zeroed |
| TaggedLaws.ReadTaggedNormal | enums/tagged_union/resp3.go:354-440 | a parsed value has known kinds, sets only the fields of its kind, at every level, and is well formed |
| TaggedLaws.NormalFields | enums/tagged_union/resp3.go:74-104 | in normal form, every field that does not belong to the kind holds Go's zero value |
| TaggedLaws.ReadTaggedIff | enums/tagged_union/resp3.go:218-440 | the tagged parser recognizes exactly the grammar and returns the normal form of the encoded value |
| TaggedLaws.TaggedRoundTripIff | enums/tagged_union/resp3.go:106-440 | the tagged round trip gives back the very same value exactly on known, well-formed values in normal form |
| Retry.WrappingKeepsRetryable | pgx-transactions/postgres/retry.go:53-60 | no stack of wrapping errors changes whether an error is retried |
| Retry.RootIsWrapped | pgx-transactions/postgres/retry.go:53-57 | every error is some cause, itself not wrapped, under some number of wrappings |
| Retry.RetryableIff | pgx-transactions/postgres/retry.go:53-60 | an error is retried exactly when that cause is a Postgres error with code 40001 or 40P01 |
| Retry.WithRetry | pgx-transactions/postgres/retry.go:16-37 | the loop ends as its recursive meaning says, for every closure, backoff and cancellation |
| Retry.RetryEnds | pgx-transactions/postgres/retry.go:16-51 | a caller that allows n attempts gets at most n, and one if n is not positive: those up to the first that does not fail retryably or whose wait is interrupted; the answer is that attempt's, or the interruption if another attempt was due |
| Retry.RetryExhausts | pgx-transactions/postgres/retry.go:21-28 | a closure that fails retryably every time, with no wait interrupted, is run exactly as often as allowed and its last error is answered |
| Transactions.Pool.RunAttempt | pgx-transactions/postgres/tx_manager.go:56-71 | begins, runs the body in its transaction and commits on nil, rolls back otherwise, wrapping errors as either runner does |
| Transactions.Pool.Transact | pgx-transactions/postgres/unit_of_work.go:34-43 | Do: retried attempts without backoff |
| Transactions.AttemptAtomic | pgx-transactions/postgres/unit_of_work.go:45-55 | a failed attempt leaves what other clients did and nothing else; a successful one replaces it by the state its body left in its own transaction; the error comes from the first of beginning, the body and committing to fail, and there is none when none fails |
| Transactions.FailuresLeaveNothing | pgx-transactions/postgres/tx_manager.go:45-71 | while attempts fail, the database moves only as other clients move it |
| Transactions.DoAtomic | pgx-transactions/postgres/tx_manager.go:45-71 | nil means exactly the last attempt's run of the body was committed, on top of other clients' changes alone; an error means the body contributed nothing; every attempt starts from what the other clients alone made of the database |
| Transactions.AttemptOutcome | pgx-transactions/postgres/unit_of_work.go:45-55 | attempt k fails retryably exactly when the first thing to go wrong in it, begin, body or commit, is a serialization failure or a deadlock |
| Transactions.DoEnds | pgx-transactions/postgres/tx_manager.go:45-71 | of the attempts the caller allows, Do makes those up to the first whose begin, body and commit do not fail retryably; it answers nil exactly when nothing failed in that attempt, and otherwise an error of the same cause |
| Transactions.DoExhausts | pgx-transactions/postgres/retry.go:21-28 | when every allowed attempt fails retryably, all of them are made and the last failure is answered |
| Users.CreateUserWithProfile | pgx-transactions/approach-transactional-service/user_service.go:40-64 | the two writes in order, with early return, routed by the context |
| Users.CreateUserInTx | pgx-transactions/approach-transactional-service/tx_manager_service.go:25-44 | the method does what CreateInTx says: the captured result is returned when Do answers nil and the zero result otherwise, and an error is wrapped |
| Users.RoutedTo | pgx-transactions/postgres/context_executor.go:22-33 | a context leads to the transaction it was last given, past all other values, and to the pool if it has none |
| Users.ExecOnPool | pgx-transactions/postgres/context_executor.go:35-42 | without a transaction in the context a statement acts on the committed database and on no transaction |
| Users.ExecInTx | pgx-transactions/postgres/context_executor.go:22-42 | a statement under a transaction's context acts on that transaction's copy and on nothing else |
| Users.CreateBodyConfined | pgx-transactions/postgres/tx_manager.go:57-58 | every write of the service reaches the attempt's own transaction, even when the outer context already carries another |
| Users.CreateOutcome | pgx-transactions/approach-transactional-service/tx_manager_service.go:25-44 | a call answers nil exactly when its last attempt begins, writes and commits without failure and finds the drawn id in neither table and the username not taken; an error has the cause of that attempt's first failure, and earlier attempts all failed retryably |
| Users.CreateUserInside | pgx-transactions/approach-transactional-service/user_service.go:40-64 | inside a transaction, the two writes fail for the first of these reasons that applies, and otherwise add exactly the returned user and profile |
| Users.ReturnedIsCommitted | pgx-transactions/approach-transactional-service/tx_manager_service.go:29-43 | a call that answers nil returns the user and profile made of its input and committed exactly those two rows; a call that answers an error returns nothing and committed nothing |
| Users.NeverUnpaired | pgx-transactions/approach-transactional-service/tx_manager_service.go:25-44 | over any run of calls, with failures and retries, no user is committed without its profile |
| Users.CreateUserOutside | pgx-transactions/approach-transactional-service/user_service.go:40-64 | without a transaction the call fails for the same reasons and the user alone stays when only the second write fails |
| Users.UnpairedWithoutTx | pgx-transactions/approach-transactional-service/user_service.go:53-61 | without a transaction, users and profiles stay paired exactly when the user insert fails too or the profile insert does not |
| Orders.OrderTx.CompleteOrder | pgx-transactions/approach-use-case-boundary/complete_order_use_case.go:38-72 | the sequence of repository calls with its early returns, for every combination of failing calls |
| Orders.CompleteInTx | pgx-transactions/approach-use-case-boundary/transactional_complete_order_use_case.go:20-34 | the use case inside a unit of work |
| Orders.CompleteOutcome | pgx-transactions/approach-use-case-boundary/transactional_complete_order_use_case.go:20-34 | a call answers nil exactly when its last attempt begins, reads a paid or pending order, completes it if pending and commits, all without failure; it then added one reservation, one payment and the status change if the order was pending, and nothing otherwise; an error adds nothing and has the cause of the last attempt's first failure, and earlier attempts all failed retryably |
| Orders.CompletedRows | pgx-transactions/approach-use-case-boundary/complete_order_use_case.go:52-69 | a completion touches its own order's payments, reservations and status only |
| Orders.CallEvolves | pgx-transactions/approach-use-case-boundary/complete_order_use_case.go:38-72 | one call moves its order from pending to paid at most once and leaves every other order alone |
| Orders.RunEvolves | pgx-transactions/approach-use-case-boundary/transactional_complete_order_use_case.go:20-34 | so does any run of calls |
| Orders.ExactlyOnce | pgx-transactions/approach-use-case-boundary/complete_order_use_case.go:38-72 | over any run, no order gets two payments or reservations, an order that became paid has exactly one of each, and status only moves from pending to paid |
| Checkout.CheckoutService.Checkout | pgx-transactions/approach-use-case-boundary/checkout_service.go:52-79 | quote, then authorization of the quoted amount, then completion with both, stopping at the first failure |
| Checkout.PaymentsBacked | pgx-transactions/approach-use-case-boundary/checkout_service.go:52-79 | over any run of checkouts, every payment carries an authorization the gateway issued for that order and that amount |
| Checkout.IssuedInRun | pgx-transactions/approach-use-case-boundary/checkout_service.go:60-66 | every authorization is from before the run or was issued in one of its checkouts, for that checkout's order and quoted amount |
| Checkout.PaymentsQuoted | pgx-transactions/approach-use-case-boundary/checkout_service.go:52-79 | so every payment not resting on an earlier authorization carries the order, the authorization id and the quoted amount of one checkout of the run |
| Checkout.CheckoutRecords | pgx-transactions/approach-use-case-boundary/checkout_service.go:69-75 | a checkout that answers nil recorded its own authorization with the quoted amount if the order was pending, and nothing if it was paid |
| Checkout.AuthorizationUsedIff | pgx-transactions/approach-use-case-boundary/checkout_service.go:60-78 | not every issued authorization becomes a payment: it does exactly when the transaction's last attempt finds the order pending and nothing in it fails, whatever the checkout answers |
| Checkout.CheckoutSucceedsIff | pgx-transactions/approach-use-case-boundary/checkout_service.go:52-79 | a checkout answers nil exactly when both services answer and its transaction's last attempt gets through |
| Checkout.CheckoutFails | pgx-transactions/approach-use-case-boundary/checkout_service.go:52-79 | a checkout that the quote or the authorization fails changes nothing; every error has the cause of what failed first: quote, authorization or the transaction's last attempt |
| Checkout.SecondCheckoutUnused | pgx-transactions/approach-use-case-boundary/checkout_service.go:60-78 | checking out an order again after a success authorizes a payment that is never recorded |
| Checkout.TwiceAuthorizedOnceRecorded | pgx-transactions/approach-use-case-boundary/checkout_service.go:60-78 | one pending order checked out twice without failures: two nil answers, two authorizations, one payment |
| Flatten.JoinConcat | logging/slogctx/multiline_text_handler.go:105 | joining two paths puts exactly one dot between their joins |
| Flatten.JoinOne | logging/slogctx/multiline_text_handler.go:105 | a path of one key is that key |
| Trails.ResolveIff | logging/slogctx/multiline_text_handler.go:104 | resolving asks a deferred value as often as it takes to reach one that is not deferred |
| Trails.FlattenedInOrder | logging/slogctx/multiline_text_handler.go:94-117 | what flattening prints is exactly the leaves that following indices down through the groups can reach, once each, in lexicographic order of those indices, each with its own text under the dotted keys passed on the way |
| Flatten.FlattenedKeys | logging/slogctx/multiline_text_handler.go:103-117 | a flattened key is the handler's dotted groups, a dot and the leaf's own dotted path, or that path alone below no group |
| Flatten.Append | logging/slogctx/multiline_text_handler.go:105 | Go's append: in place when there is room, in a new array otherwise, never changing the slice it extends |
| Flatten.FlattenAttr | logging/slogctx/multiline_text_handler.go:103-117 | the result is the attribute's leaves, depth first, under dotted paths; nothing inside the visible part of the given slice is written |
| Flatten.FlattenAttrs | logging/slogctx/multiline_text_handler.go:94-101 | the same for a list of attributes, in order |
| Flatten.RenderedUnder | logging/slogctx/multiline_text_handler.go:112-113 | descending into a group with one more key renders the same as prefixing that key to every path found below |
| Handlers.Tree.AddWithAttrs | logging/slogctx/multiline_text_handler.go:59-70 | the child has its parent's attributes and then its own, and its parent's groups |
| Handlers.Tree.AddWithGroup | logging/slogctx/multiline_text_handler.go:72-83 | the child has its parent's attributes and groups and then the new group, in memory of its own |
| Handlers.Tree.Log | logging/slogctx/multiline_text_handler.go:29-57 | the record's time, level and message, then the handler's attributes, then the record's own, are flattened in that order under the handler's groups; every handler keeps its groups |
| Handlers.Tree.Run | logging/slogctx/multiline_text_handler.go:59-117 | over any sequence of deriving and logging, every handler keeps the groups it was made with |
| Bag.LogBag.Add | logging/canonicallog/bag.go:43-54 | adds with 64-bit wrap-around to the field's integer, a missing field or one of another type counting as zero |
| Bag.LogBag.AddDuration | logging/canonicallog/bag.go:56-67 | the same for durations |
| Bag.LogBag.Append | logging/canonicallog/bag.go:69-80 | appends to the field's list |
| Bag.LogBag.AppendGroup | logging/canonicallog/bag.go:82-93 | appends to the field's groups |
| Bag.LogBag.Set | logging/canonicallog/bag.go:31-41 | replaces the field |
| Bag.ApplyEffect | logging/canonicallog/bag.go:31-93 | an update sets, adds to modulo 2^64 or appends to its own field, a missing field or one of another type counting as zero, and leaves every other field alone |
| Bag.WrapIff | logging/canonicallog/bag.go:53 | a 64-bit sum is the one 64-bit integer congruent to the true sum modulo 2^64 |
| Bag.TraceQueryEnd | logging/postgres/tracer.go:179-207 | the tracer's updates and their order, with rows only when positive and errors only on failure, and nothing without a bag |
| Tracing.StepEffect | logging/postgres/tracer.go:194-206 | which of the tracer's fields each update of a trace changes, and how |
| Tracing.ExecutionKeepsInv | logging/postgres/tracer.go:194-206 | in every interleaving, each of the five fields holds exactly what the traces have contributed so far |
| Tracing.CountsAgree | logging/postgres/tracer.go:194-206 | in every reachable state the groups outnumber the query count by the traces between those two updates, and errors never outnumber queries |
| Tracing.QuiescentTotals | logging/canonicallog/bag.go:43-93 | once all traces have finished, the bag holds each query once and the totals of all of them, whatever the interleaving |

## Left out

- Text of finite floats (`FormatFloat`, `ParseFloat`): a parameter of the codec, see the assumptions.
- NaN payloads: all NaNs are one value, because the codec writes and reads them alike.
- Machine limits in the parsers: overflow of a position plus a declared length, the memory reserved for a declared count and stack depth.
- Values next to an error and the position after one: Go returns a zero value there; callers ignore both.
- Nil items, keys and values inside sealed aggregates, on which serializing panics; nil and empty slices are one.
- Error message text and `Kind.String`: they add only facts about one branch.
- Real Postgres and pgx: isolation below serializable, an aborted transaction's refusal of further statements, and a rollback that itself fails.
- Order creation and other writers of the order tables: other clients, constrained as the assumptions say.
- Choice of the ids that `uuid.New` draws: arbitrary; a repeated id meets the primary key.
- Wall-clock waits: whether a wait is interrupted is arbitrary; `Do` never waits.
- `slog`'s limit on how often a value may resolve to another: resolving always ends here, at the value reached.
- Log value formatting, quoting, and a failing log writer.
- `Attrs` of the bag: sorting and rendering the fields reads the bag once under its lock and changes nothing.
- The mutexes themselves: each locked section is one step.
- Query text cleaning, argument conversion and redaction: a query's report is taken as given.
- The other transaction styles (`approach-tx-in-ctx`, `approach-unit-of-work`), HTTP handlers, middleware, metrics, validation, functional options and the optional type: plumbing around the parts above.
