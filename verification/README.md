# antd client protocols, modelled in Dafny

This project models the parts of the antd SDKs (C++ and Go) and of the antd daemon
(Rust) where two programs must understand each other through bytes, text or
repeated calls, and proves that they do, for all inputs:

- **Paying for an upload** (`PaymentFields`, `PaymentCall`, `Argv`, `CastCommand`). The
  daemon's prepare response is validated, printed as a tuple argument, and handed to
  `cast` on a Windows command line. Validation accepts exactly the valid requests, and
  for each of them both command lines read back to the intended argument vectors under
  every variant of the Windows parsing rules, the tuple argument reads back to the
  payments, and the two calls fit together: what the first approves, the second spends.
  The Windows parsers and a reader of `cast send` are written out as references.
- **Downloading with progress** (`Base64`, `Frames`, `Ndjson`, `NdjsonPull`,
  `Download`). Plaintext batches become base64 in NDJSON lines, arrive in arbitrary
  pieces, and come out of the C++ push parser and of Go's pull parser whole and in
  order. Where the two parsers differ is stated exactly.
- **Partial uploads** (`JsonCount`, `PartialMessage`, `PartialTruncation`,
  `PartialErrors`, `DaemonErrors`). The daemon's message and REST body give the same
  typed error, in Go and in C++, for all counts and for any reason text; what is read
  from a cut-off message is settled exactly. Every other daemon error is followed over
  both transports into both clients.
- **Byte ranges** (`ByteRange`, `RangeWindows`, `ChunkStream`, `RangeDownload`). The
  client's header and gRPC fields against the daemon's parser and clamping, its
  window plan, its frames, and the client's readers, down to the bytes received.
- **Retrying a finalize** (`FinalizeRetry`, `RetryAgainstDaemon`). The bounded loop
  against any sequence of outcomes, and then against the daemon's session store with
  an environment that may expire sessions, fail, store any subset of the chunks and
  lose or cut responses.

`Text` and `Decimal` hold the string and number helpers the others share.

## How to read it

- A `string` is a byte string, one `char` for one byte; `byte` values are the
  integers 0 to 255. Machine integers are `int64` and `uint64` where their width
  matters.
- Shifts, masks and ors in the base64 sources appear as sums, quotients and
  remainders; `Base64.BitsAreArithmetic` and `Base64.SextetBitsAreArithmetic` prove,
  on 32-bit vectors, that these are the same.
- Loops and classes of the sources are methods and classes proved against a function
  of their inputs or old state; the lemmas are about those functions.
- A JSON library, a JSON writer, a rounding to doubles, a caller's sink, a transport's
  chunking and the outcomes of calls are parameters, quantified over.

## Where code and documentation differ

The model follows the code.

- `antd-go/errors.go:189-192` says that a hint quoted in the failure reason, or a
  truncated tail, is not read as the daemon's answer. Together they can be: a message
  cut right after a closed group that quotes a hint inside its reason is read as an
  answer. `PartialTruncation.TruncatedRetention` gives the exact condition,
  `PartialTruncation.MisreadExample` a message that meets it, and
  `PartialTruncation.FinalizeMessageIsSafe` shows that the reason the finalize path
  writes never meets it while the upload id holds no parenthesis.
- Past 2^63 - 1 the Go client drops the last position from its Range header and cannot
  read the answer's size, so REST and gRPC ask for different bytes there
  (`ByteRange.SameBytes`) and the promise of a described range holds exactly for sizes
  below 2^63 (`ByteRange.RangeAsPromised`).
- C++ strips one carriage return from a line and Go strips all, C++ raises an error on a
  mistyped field or a null line where Go reads on (`Frames.LineAgreement`);
  Go reads an unterminated last line and C++ drops it (`NdjsonPull.AgreeIffTailSkips`).
- `antd-go/grpc_client.go:146-147` says that gRPC errors match the REST client's types. They
  do exactly for the errors `DaemonErrors.GrpcKeepsType` lists, where no error-code metadata
  is read.
- The C++ client gives each typed error a fixed status and Go keeps the received one;
  only Go has a type for 416; counts written with a fraction or an exponent are read by
  Go alone; and a number whose double is infinite, anywhere in a body, makes C++ fall
  back to the status and the raw body where Go reads on. `PartialErrors.CountsDiffer` and
  `PartialErrors.ClientsBuildTheSameError` give the exact conditions.

## Model

| member | source | states |
|---|---|---|
| Argv.QuoteWindowsArg | antd-cpp/examples/external_signer_util.hpp:152-176 | the loop over backslash runs produces the escaping that ParseQuoted proves readable |
| Argv.CheckArgv | antd-cpp/examples/external_signer_util.hpp:135-144 | reports a missing program before a NUL anywhere, and nothing for any other vector |
| Argv.WindowsCommandLine | antd-cpp/examples/external_signer_util.hpp:181-192 | succeeds exactly for non-empty, NUL-free vectors with a quote-free program name; each error case in the order the code checks it |
| Argv.BackslashesBeforeQuote | antd-cpp/tests/test_external_signer_util.cpp:45-73 | the documented rule of the reference parsers: before a quote, 2n+1 backslashes give n and a literal quote, 2n give n and toggle quoting, with a doubled quote inside quotes as each variant reads it |
| Argv.BackslashesBeforeOther | antd-cpp/tests/test_external_signer_util.cpp:45-73 | backslashes before anything else are literal, and a space or tab ends an argument exactly outside quotes |
| Argv.QuotedExactly | antd-cpp/examples/external_signer_util.hpp:152-156 | an argument is quoted if and only if it is empty or holds a space, tab, newline, vertical tab or quote |
| Argv.ParseEscaped | antd-cpp/examples/external_signer_util.hpp:157-175 | inside quotes the escaped text reads back as the argument, for any pending backslash run and any following text, whether doubled quotes toggle or are literal |
| Argv.ParsePlain | antd-cpp/examples/external_signer_util.hpp:153-155 | an argument left unquoted reads back as itself, backslashes included |
| Argv.ParseQuoted | antd-cpp/examples/external_signer_util.hpp:152-176 | parsing a printed argument gives exactly that argument and stops at the next separator |
| Argv.ParseArguments | antd-cpp/examples/external_signer_util.hpp:186-191 | all printed arguments after the program read back in order, empty ones included |
| Argv.ParsePrintedProgram | antd-cpp/examples/external_signer_util.hpp:182-185 | the quoted program name reads back under its own rule, where backslashes are literal |
| Argv.EscapedKeepsNul | antd-cpp/examples/external_signer_util.hpp:137-143 | escaping neither adds nor removes a NUL, so the check on the arguments is a check on the line |
| Argv.ParsedIsPassable | antd-cpp/tests/test_external_signer_util.cpp:28-77 | no command line parses to a quote in the program name or to a NUL in an argument, so what is refused could not have been passed |
| Argv.CommandLineRoundTrip | antd-cpp/examples/external_signer_util.hpp:181-192 | parsing the printed line gives back the vector, under every rules variant, if and only if the program name has no quote and nothing has a NUL |
| PaymentFields.IsHexDigits | antd-cpp/examples/external_signer_util.hpp:50-58 | true exactly for strings of the given length made of hex digits |
| PaymentFields.IsEvmAddress | antd-cpp/examples/external_signer_util.hpp:61-63 | true exactly for 0x and 40 hex digits |
| PaymentFields.IsBytes32Hex | antd-cpp/examples/external_signer_util.hpp:67-70 | true exactly for 64 hex digits, with or without 0x |
| PaymentFields.HexDigits | antd-cpp/examples/external_signer_util.hpp:50-58 | a hex digit is one of the 22 characters 0-9, a-f, A-F |
| PaymentFields.HexLengths | antd-cpp/examples/external_signer_util.hpp:61-70 | a run of hex digits is an address with 0x and 40 digits only, and a 32-byte value with 64 digits only, 0x or not |
| PaymentFields.LexIsNumeric | antd-cpp/examples/external_signer_util.hpp:81 | on digit strings of one length, byte order and numeric order coincide |
| PaymentFields.ShortIsInRange | antd-cpp/examples/external_signer_util.hpp:81 | any digit string shorter than 78 bytes is at most 2^256 - 1, leading zeros or not |
| PaymentFields.MaxTextValue | antd-cpp/examples/external_signer_util.hpp:75-76 | the 78-digit constant, spelled as six-digit groups, is the numeral of 2^256 - 1 |
| PaymentFields.IsDecimalUint256 | antd-cpp/examples/external_signer_util.hpp:74-82 | the text comparison accepts exactly the strings of 1 to 78 ASCII digits whose value is at most 2^256 - 1 |
| PaymentCall.IsHttpUrl | antd-cpp/examples/external_signer_util.hpp:86-101 | true exactly for http(s) URLs with something after the scheme, at most 2048 bytes, printable ASCII without spaces |
| PaymentCall.HttpLimits | antd-cpp/examples/external_signer_util.hpp:86-101 | after http:// exactly 1 to 2041 printable ASCII characters without spaces are accepted |
| PaymentCall.HttpsLimits | antd-cpp/examples/external_signer_util.hpp:86-101 | after https:// exactly 1 to 2040 such characters are accepted |
| PaymentCall.UrlRejects | antd-cpp/examples/external_signer_util.hpp:86-101 | no other scheme is accepted, and no text with a space, control or non-ASCII byte |
| PaymentCall.ValidateSigningRequest | antd-cpp/examples/external_signer_util.hpp:106-127 | accepts exactly the requests whose fields are all valid, and otherwise names the first bad field in checking order |
| PaymentCall.BuildTuples | antd-cpp/examples/07-external-signer.cpp:88-97 | the loop prints the list that TuplesRoundTrip proves readable, commas between elements only |
| PaymentCall.TuplesExample | antd-cpp/examples/07-external-signer.cpp:88-97 | the exact argument text for two payments, one hash without 0x |
| PaymentCall.ParsePrintedElements | antd-cpp/examples/07-external-signer.cpp:88-97 | a printed non-empty list reads back element by element with quote hashes normalised to 0x |
| PaymentCall.TuplesRoundTrip | antd-cpp/examples/07-external-signer.cpp:88-97 | a reader that only looks for separators gets the payments back, quote hashes normalised, if and only if no address or amount holds a comma and no quote hash a closing parenthesis |
| PaymentCall.ValidFieldsArePlain | antd-cpp/examples/external_signer_util.hpp:103-127 | validated fields hold no bracket, parenthesis, comma or NUL, so they meet the condition of TuplesRoundTrip |
| PaymentCall.RequestArgvsPrintable | antd-cpp/examples/07-external-signer.cpp:54-66 | for every valid request both cast vectors can be put on a Windows command line |
| PaymentCall.ValidRequestSurvives | antd-cpp/examples/07-external-signer.cpp:81-99 | for every valid request, both command lines parse to the intended vectors under every rules variant and the tuple argument reads back to the payments |
| PaymentCall.NothingReadsAsOption | antd-cpp/examples/external_signer_util.hpp:103-127 | no daemon-provided argument of a valid request starts with a dash |
| PaymentCall.CastSend | antd-cpp/examples/07-external-signer.cpp:54-66 | what comes back is always the 32-byte hash of a receipt, it comes back whenever there is one, and a run that failed can be told from a malformed hash |
| PaymentCall.ExternalSignerPay | antd-cpp/examples/07-external-signer.cpp:72-103 | nothing is started for an invalid or empty request, whose first bad field is named; approve is sent to the token with the vault as spender, pay goes to that vault and only after it; the keys are exactly the quote hashes, all mapped to the one transaction |
| CastCommand.CastArgvReads | antd-cpp/examples/07-external-signer.cpp:54-61 | a reader of cast send command lines gets from the vector its own words and, by name, the RPC URL, key, gas limit and JSON flag |
| CastCommand.AllowanceValue | antd-cpp/examples/07-external-signer.cpp:47-48 | the allowance is the number 2^256 - 1 |
| CastCommand.CallsFitTogether | antd-cpp/examples/07-external-signer.cpp:83-99 | as parsed from both command lines under every rules variant: the token is asked to approve the very contract the second call goes to, for the largest amount; the second pays the listed quotes; each carries the URL, key and its own gas limit |
| Base64.AlphabetByRange | antd-cpp/src/base64.cpp:7-8 | the alphabet literal is the RFC 4648 alphabet, range by range |
| Base64.TableInvertsAlphabet | antd-cpp/src/base64.cpp:42-60 | the decode table maps each letter to its index, and no letter is the padding character |
| Base64.AlphabetInvertsTable | antd-cpp/src/base64.cpp:42-60 | every byte the table accepts is the letter of its own value |
| Base64.AlphabetMembers | antd-cpp/src/base64.cpp:42-60 | the table accepts exactly the 64 characters of the alphabet literal |
| Base64.BitsAreArithmetic | antd-cpp/src/base64.cpp:20-25 | the encoder's shifts and masks on uint32 are the sums, quotients and remainders of the model |
| Base64.SextetBitsAreArithmetic | antd-cpp/src/base64.cpp:85-89 | the same for the decoder |
| Base64.PatchedIsEncoded | antd-cpp/src/base64.cpp:10-40 | zero-extended groups with the last one or two letters overwritten by padding are the RFC 4648 section 4 encoding |
| Base64.Base64Encode | antd-cpp/src/base64.cpp:10-40 | returns the RFC 4648 section 4 encoding of every byte string |
| Base64.Base64Of | antd-cpp/src/grpc_client.cpp:739-768 | returns the same encoding although it branches on the tail, so the two encoders agree on every byte string |
| Base64.RfcExamples | antd-cpp/src/base64.cpp:10-40 | the encodings of f, fo and foo from RFC 4648 section 10 |
| Base64.Base64Decode | antd-cpp/src/base64.cpp:62-93 | its result for every string, malformed ones included: rejected bytes, the wrapped output length, and the octets kept |
| Base64.DecodeRejects | antd-cpp/src/base64.cpp:62-83 | over all strings: the length error comes exactly for texts under four characters with padding among the last two, the character error exactly for any other with a character outside the alphabet and =, and the rest give 3 octets a group less padding |
| Base64.DecodedIsPlain | antd-cpp/src/base64.cpp:62-93 | on well-formed input the truncated output is what the groups carry, padding dropped |
| Base64.GroupRoundTrip | antd-cpp/src/base64.cpp:14-38 | one encoded group decodes to its one to three octets and has zero pad bits |
| Base64.GroupDecodeEncode | antd-cpp/src/base64.cpp:74-90 | one decoded group encodes to itself with pad bits zeroed |
| Base64.EncodeThenDecode | antd-cpp/src/base64.cpp:10-93 | for every byte string, the encoding is canonical and decodes to that byte string |
| Base64.DecodeThenEncode | antd-cpp/src/base64.cpp:10-93 | for every well-formed string, re-encoding what was decoded changes only the unused pad bits, to zero |
| Base64.RoundTripIffCanonical | antd-cpp/src/base64.cpp:10-93 | over all strings, decoding then encoding gives the string back if and only if it is canonical (RFC 4648 section 3.5) |
| Frames.ObjectAgreement | antd-go/client.go:450-471 | the two clients do the same with an object if and only if the fields its kind is read for have types both take, an error has its message, and a payload is decoded by both or by neither |
| Frames.LineAgreement | antd-cpp/src/client.cpp:37-69 | over every line the two clients do the same if and only if it is blank with at most one carriage return, or a JSON value other than null that is no object, no JSON at all, or an object they read alike |
| Frames.BadLines | antd-go/client.go:440-466 | what each client raises or passes over: both reject text that is no JSON, a value that is no object, and a payload neither decodes; null and an error without message are treated differently |
| Frames.MissingFields | antd-cpp/src/client.cpp:46-66 | missing counts read as zero and a missing phase or payload as empty, in both clients |
| Ndjson.LinesAppend | antd-cpp/src/client.cpp:359-379 | the lines of a longer body are the lines so far followed by those of the tail and the new bytes, wherever the cut falls |
| Ndjson.NdjsonSink.constructor | antd-cpp/src/client.cpp:359-360 | a sink starts with an empty buffer and no frames |
| Ndjson.NdjsonSink.Feed | antd-cpp/src/client.cpp:361-378 | one chunk's frames are those of the complete lines of buffer plus chunk; the buffer is then what follows the last newline, empty after an abort, and unchanged after a throw |
| Ndjson.DoStream | antd-cpp/src/client.cpp:200-249 | however the body is cut, the frames are those of splitting the whole body on newlines; an error status delivers nothing and keeps the whole body; an abort returns normally |
| Ndjson.ConsumeMore | antd-cpp/src/client.cpp:366-371 | after an abort or a throw the rest of the body changes nothing |
| Ndjson.SeenUpToRefusal | antd-cpp/src/client.cpp:350-371 | if the sink first refuses frame k then exactly frames 1 to k were seen, and if it refuses none it sees all |
| Ndjson.DownloadUntilRefused | antd-cpp/src/client.cpp:200-249 | running the stream with a sink that first refuses frame k returns normally after exactly frames 1 to k; with one that refuses none, all frames are seen and the stream returns or raises |
| NdjsonPull.NdjsonStream.Recv | antd-go/client.go:429-474 | one call returns the next frame, end or error of the unread body and leaves the rest, where BrokenPull and SkippedIffIgnored say what those are; its skipping loop ends because each turn consumes input |
| NdjsonPull.NdjsonStream.ReceiveAll | antd-go/client.go:416-474 | draining yields every frame up to the first end or error, where BrokenDrain and PullMatchesPush say which |
| NdjsonPull.BrokenPull | antd-go/client.go:431-437 | one call on a body that breaks off does what it does on the intact body, but reports the read error where that would end, and never an end |
| NdjsonPull.BrokenDrain | antd-go/client.go:431-437 | a body that breaks off gives the same frames as its bytes alone and then the read error, or the same earlier error; it never reads as complete |
| NdjsonPull.PullMatchesPush | antd-go/client.go:429-474 | over bodies whose lines are read alike, draining gives the push parser's frames and then whatever the unterminated tail gives; a throw comes at the same frame |
| NdjsonPull.SkippedIffIgnored | antd-go/client.go:438-472 | Recv passes over a line if and only if it is blank, the JSON null, or an object of none of the four known types |
| NdjsonPull.AgreeIffTailSkips | antd-go/client.go:431-437 | with such lines and no throw, the two agree on a whole body if and only if its unterminated tail is blank, null or an object of unknown type |
| NdjsonPull.ClientsAgree | antd-go/client.go:429-474 | on every newline-terminated body whose lines mean the same to both, Go's frames and ending are C++'s |
| Download.LinesOfBody | antd/src/rest/data.rs:236-256 | splitting the daemon's body on newlines gives back its lines, with no tail |
| Download.PrintedLineReads | antd/src/rest/data.rs:347-357 | each kind of daemon line is read by both clients as its frame, or raised with its message |
| Download.DownloadDelivers | antd/src/rest/data.rs:347-437 | for any plaintext, batching, interleaving of progress and cutting in transit, the data frames of both clients concatenate to the plaintext |
| Download.FailedDownloadReports | antd/src/rest/data.rs:397-429 | when the daemon writes an error line, every frame before it is delivered and both clients end with its message, whatever lines its other tasks queue after it and however the body is cut |
| Download.DownloadFails | antd-cpp/src/client.cpp:200-249 | running the stream on a failed download returns exactly what was sent before the failure and raises the daemon's message |
| Download.DownloadAll | antd-cpp/src/client.cpp:200-249 | running the stream with the sink returns the plaintext |
| JsonCount.CountFromFloat | antd-go/errors.go:311-320 | a finite integral double in [0, 2^64) is converted exactly, and everything else is zero |
| JsonCount.TextIsDigitsIffPlain | antd-go/errors.go:287-300 | a JSON literal parses as an unsigned integer only if it has no sign, fraction or exponent |
| JsonCount.LiteralExamples | antd-go/errors.go:287-309 | the values of 25e-1, -1.50E+2 and 12 as literals |
| JsonCount.CountIsStrict | antd-go/errors.go:284-320 | for every literal of RFC 8259 section 6 and any monotone rounding that keeps 0 and 2^64: a plain integer below 2^64 is exact, anything larger or negative is zero, other literals count only as integral doubles |
| JsonCount.PlainLiteralCount | antd-go/errors.go:287-300 | a count the daemon writes is read back exactly |
| PartialMessage.MatchCountsSound | antd-go/errors.go:171-173 | what the left-to-right reader accepts is a match of the counts expression |
| PartialMessage.MatchCountsComplete | antd-go/errors.go:171-173 | every match of the expression is found, so its digit runs are determined |
| PartialMessage.MatchTailSound | antd-go/errors.go:187-193 | what the search from the last parenthesis accepts is a match of the retention expression |
| PartialMessage.MatchTailComplete | antd-go/errors.go:187-193 | every match of the expression is found and decides which hint it is |
| PartialMessage.ScanIsPattern | antd-cpp/include/antd/errors.hpp:285-307 | the C++ hand-written scan and the Go expression give the same retention answer on every message |
| Decimal.FromCharsReads | antd-cpp/include/antd/errors.hpp:258-263 | reading digit by digit from a running value gives the positional value, and stops exactly when that exceeds 64 bits |
| Decimal.ConversionsAgree | antd-cpp/include/antd/errors.hpp:258-263 | on every text, overflow met digit by digit is overflow of the whole number, so C++ and Go convert alike |
| PartialMessage.ClientsParseAlike | antd-cpp/include/antd/errors.hpp:341-374 | the C++ reader, with its own digit conversion and hand-written scan, returns the counts and flags of the Go reader on every message |
| PartialMessage.ParseByPatterns | antd-go/errors.go:202-222 | counts in range are returned exactly; known means that a hint matches; retryable means that the retained hint matches |
| PartialMessage.MessageLayout | antd/src/error.rs:87-109 | the whole text of the message, with each hint spelled out |
| PartialMessage.MessageRoundTrip | antd/src/error.rs:87-109 | for all u64 counts, either hint and every reason, parsing the daemon's message returns exactly what was written, with retention known |
| PartialTruncation.CutCounts | antd-go/errors.go:202-215 | a cut inside the fixed start reads as nothing, and any later cut still matches the whole counts |
| PartialTruncation.TruncatedCounts | antd-go/errors.go:202-222 | on every strict prefix the counts are exact or all zero, and retryable implies known |
| PartialTruncation.CutMatchQuotes | antd-go/errors.go:187-193 | a hint read at the end of a strict prefix lies inside the reason text |
| PartialTruncation.QuotedHintMisleads | antd-go/errors.go:187-193 | a reason that quotes a hint in a closed group can be cut so that the quote is read as the answer |
| PartialTruncation.TruncatedRetention | antd-go/errors.go:202-222 | some strict prefix reads as an answer if and only if the reason quotes a hint in a closed group, and as retained if and only if it quotes the retained one |
| PartialTruncation.MisreadExample | antd-go/errors.go:187-193 | a concrete message that says nothing was retained, and a cut of it that is read as retained |
| PartialTruncation.NoClosingParenIsSafe | antd-go/errors.go:187-193 | a reason without a closing parenthesis quotes no hint, so no prefix reads as an answer |
| PartialTruncation.FinalizeMessageIsSafe | antd/src/rest/upload.rs:562-571 | for the reason the finalize path writes and an upload id without parentheses, no prefix reads as an answer |
| PartialErrors.TransportsAgree | antd-go/errors.go:227-282 | for all counts, either hint and every reason, the REST body and the gRPC status give the same typed error in Go and in C++, with the daemon's counts and flag |
| PartialErrors.RetryableImpliesKnown | antd-go/errors.go:94-123 | retryable implies that retention is known, for any body in either client and any status message |
| PartialErrors.AbortedAlike | antd-cpp/src/grpc_client.cpp:49-75 | C++ and Go build the same error from every ABORTED message; AbortedIsPartial says which |
| PartialErrors.AbortedIsPartial | antd-go/errors.go:165-167 | in both clients an ABORTED message is a partial upload if and only if the text before its first colon is Partial upload; any other keeps the generic error with code 10 |
| PartialErrors.EmbeddedStaysGeneric | antd-go/grpc_client.go:193-201 | the daemon's message after any other text, as a wrapped error carries it, stays generic |
| PartialErrors.SameCount | antd-cpp/src/client.cpp:110-115 | C++ and Go convert a number they both read to different counts if and only if it has a fraction or exponent and its double is a positive integer below 2^64 |
| PartialErrors.CountsDiffer | antd-cpp/src/client.cpp:93-136 | the two read a number differently if and only if C++ refuses it, being no 64-bit integer and having an infinite double, or it has a fraction or exponent and its double is a positive integer below 2^64 |
| PartialErrors.RefusedAnywhere | antd-cpp/src/client.cpp:93-99 | a number that C++ refuses refuses the whole document, however deep it lies |
| PartialErrors.RefusedIsLarge | antd-cpp/src/client.cpp:93-99 | only a number beyond 64 bits can be refused |
| PartialErrors.KindsDiffer | antd-cpp/include/antd/errors.hpp:459-472 | the two status tables choose the same error type for every status but 416, which only Go has |
| PartialErrors.ClientsBuildTheSameError | antd-cpp/src/client.cpp:93-136 | the clients build the same error, for every status and body, iff C++ reads the body, the status fits the code (never 416 without one) and no count is one only Go reads; or C++ refuses it and it has no typed code, no other error text and no 416 |
| DaemonErrors.RestGivesOwnError | antd/src/error.rs:213-274 | from every daemon error over REST, Go builds the error of its own type with text and flag; C++ does for all but a 416 |
| DaemonErrors.GrpcKeepsType | antd/src/error.rs:277-334 | over gRPC without metadata a client gets the type, status and details of REST if and only if the error is no timeout, missing service or feature, pointer, conflict or close-group error (nor, in C++, a refused range) |
| DaemonErrors.GrpcClientsAgree | antd-go/grpc_client.go:148-206 | C++ and Go build the same error over gRPC from every daemon error but a refused range |
| ByteRange.ParseContentRange | antd-go/range.go:64-87 | whatever is accepted has a non-negative offset, at least one byte, and an end within the size |
| Decimal.ParseInt64OfSigned | antd-go/range.go:73-83 | an explicit sign is read, down to -2^63 and up to 2^63 - 1 |
| ByteRange.ParsePrintedRange | antd/src/range.rs:61-112 | the daemon reads a printed header as exactly the requested span, clamped, and as unsatisfiable exactly from the size on |
| ByteRange.UnitInAnyCase | antd/src/range.rs:66-68 | the unit is the five letters of bytes, each in either case |
| ByteRange.OtherForms | antd/src/range.rs:62-76 | another unit, no =, a comma after it or no dash is malformed for every object size |
| ByteRange.SpacedRange | antd/src/range.rs:62-84 | white space around the unit and around each position, and the case of the unit, change nothing |
| ByteRange.SuffixRange | antd/src/range.rs:87-97 | a suffix request gives the last n bytes, the whole of a shorter object, and is unsatisfiable for n = 0 or an empty object |
| ByteRange.BackwardRange | antd/src/range.rs:105-107 | a range ending before it starts is malformed rather than unsatisfiable |
| ByteRange.PositionTooWide | antd/src/range.rs:78-84 | a position that does not fit 64 bits is malformed for every object |
| ByteRange.ParsePrintedContentRange | antd-go/range.go:64-87 | parsing a printed range is the identity when its size fits int64 and a refusal otherwise |
| ByteRange.ReadUnsatisfiedSize | antd-go/range.go:89-99 | the size of a 416 is read back when it fits int64 and as -1 otherwise |
| ByteRange.SpacedValues | antd-go/range.go:64-99 | white space around the daemon's two header values changes nothing in what the client reads |
| ByteRange.NegativeSizeIsUnknown | antd-go/range.go:89-99 | a negative size in a 416 reads as unknown |
| ByteRange.HeaderExamples | antd-go/range.go:38-50 | the exact texts of the request header and of the daemon's two values, by example |
| ByteRange.NotBoth | antd-go/range.go:64-99 | no header value is both a satisfied range and an unsatisfied size |
| ByteRange.RestSpan | antd-go/range.go:38-50 | the daemon serves the REST header from the offset to the clamped end, or to the end of the object when the last position would overflow int64 |
| ByteRange.GrpcSpan | antd/src/range.rs:118-131 | the daemon serves the gRPC fields from the offset to the clamped end |
| ByteRange.FieldsServe | antd/src/range.rs:118-131 | for any gRPC fields a byte is served if and only if the object has it and it lies from the offset on and within the length if one is given; zero length is malformed, an offset at or past the end unsatisfiable |
| ByteRange.SameBytes | antd-go/grpc_client.go:416-424 | header and gRPC fields denote the same bytes except exactly when the end overflows int64 and the object is larger still |
| ByteRange.ContentRangeReads | antd/src/range.rs:38-42 | the daemon's Content-Range value gives a reader for exactly its span, if the size fits int64 |
| ByteRange.TransportsAgree | antd-go/grpc_client.go:426-474 | REST and gRPC give the caller the same outcome for every offset, length and size |
| ByteRange.RangeAsPromised | antd-go/client.go:193-226 | an accepted request gives offset, min(length, size - offset) and the size, or a 416 with the size exactly from the end on, if and only if the size is below 2^63 |
| ByteRange.RejectsExactly | antd-go/range.go:52-60 | the client refuses, before sending, exactly a negative offset or a length neither positive nor -1, each with its own error |
| RangeWindows.PlanWindows | antd/src/range.rs:133-167 | the loop returns windows cut at chunk boundaries that tile the range; every window but the last spans exactly the allowed number of chunks, and the last at least one |
| RangeWindows.WindowEnds | antd/src/range.rs:133-167 | each window ends where the next starts, at a chunk boundary, and the outer ends are the range's |
| RangeWindows.WindowsTile | antd/src/range.rs:133-167 | the windows cover the range without gap or overlap |
| RangeWindows.ChunkInOneWindow | antd/src/range.rs:133-135 | a window overlaps exactly the chunks of its own cut that the range overlaps, so no chunk is fetched for two windows |
| RangeWindows.ChunkInSomeWindow | antd/src/range.rs:133-135 | every chunk that the range overlaps belongs to some window |
| RangeWindows.SlicesConcatenate | antd/src/range.rs:169-198 | reading the windows one after the other is reading the range |
| ChunkStream.GrpcChunkReader.constructor | antd-go/grpc_client.go:309-317 | a reader starts with nothing buffered and every message unread |
| ChunkStream.GrpcChunkReader.Read | antd-go/grpc_client.go:319-335 | one call steps the reader's state as ReadConserves describes, skipping empty and progress messages |
| ChunkStream.ReadConserves | antd-go/grpc_client.go:319-335 | bytes returned, buffered and unread together are constant; a call with room returns at least one byte or the end; the end comes only when nothing is owed |
| ChunkStream.ReadTakesNext | antd-go/grpc_client.go:319-335 | a call returns as much as fits of what is left over, or, only when nothing is, of the next message with data, and keeps the rest |
| ChunkStream.RunConserves | antd-go/grpc_client.go:319-335 | the same over any sequence of calls with any buffer sizes |
| ChunkStream.EndAfterEverything | antd-go/grpc_client.go:319-335 | the next call reports EOF or an error if and only if every received byte has been delivered |
| ChunkStream.DrainStopsAtRefusal | antd-cpp/src/grpc_client.cpp:209-229 | if the sink first refuses data chunk k then it was called with exactly chunks 1 to k and the drain stopped; if it refuses none it got them all |
| ChunkStream.ReadToEnd | antd-go/grpc_client.go:309-335 | reading to the end returns all bytes received before it, and the RPC's own end |
| ChunkStream.DrainChunks | antd-cpp/src/grpc_client.cpp:203-230 | the sink gets each data chunk up to the first it refuses and then no status is raised; if it refuses none it gets all and exactly a bad status is raised |
| ChunkStream.DrainIsOwed | antd-cpp/src/grpc_client.cpp:203-230 | a sink that refuses nothing gets the bytes that the Go reader owes its caller |
| RangeDownload.AllFramesData | antd/src/grpc/service.rs:381-457 | cutting windows into frames loses and reorders nothing |
| RangeDownload.FramesFit | antd/src/grpc/service.rs:381-457 | no frame is empty or longer than the frame size, and only a window's last is shorter |
| RangeDownload.DownloadRange | antd/src/grpc/service.rs:381-457 | for every object below 2^63 bytes, chunking, window and frame size and read size, the caller gets exactly the promised bytes |
| FinalizeRetry.FinalizeWithRetry | antd-cpp/examples/07-external-signer.cpp:126-169 | against any outcomes it stops where the documented rule says, after at most 5 calls and k(k-1) seconds of sleep for k calls, with the last outcome's counts and flags |
| FinalizeRetry.StopsOnce | antd-cpp/examples/07-external-signer.cpp:126-169 | the outcomes alone settle how many calls are made |
| FinalizeRetry.RetriesFall | antd-cpp/examples/07-external-signer.cpp:131-166 | another call follows only retryable partials whose failed counts strictly fall |
| FinalizeRetry.ReturnsIffSuccess | antd-cpp/examples/07-external-signer.cpp:126-169 | it returns if and only if some call it makes succeeds, and a rethrown partial is the last call's own |
| FinalizeRetry.FifthCallIsLast | antd-cpp/examples/07-external-signer.cpp:126-166 | four retryable partials with falling counts are followed by a fifth call and no sixth |
| FinalizeRetry.Diagnosed | antd-cpp/examples/07-external-signer.cpp:131-159 | a rethrown partial says reconcile first exactly when retention is unknown, nothing retained exactly when the daemon said so, and stuck otherwise, after five calls or a count that did not fall |
| FinalizeRetry.StopsByStuckRule | antd-cpp/examples/07-external-signer.cpp:147-159 | a retryable partial stops it before the cap only when the failed count did not fall |
| FinalizeRetry.StuckRuleTerminates | antd-cpp/examples/07-external-signer.cpp:147 | without the cap, going on past call k needs at least k - 1 chunks unstored after the first call, so the stuck rule alone ends the loop |
| RetryAgainstDaemon.FinalizeKeeps | antd/src/rest/upload.rs:484-608 | every finalize call, whatever fails around it, stores only against the upload's payment once paid, loses nothing stored, retains an attempt only for exactly the unstored chunks, and answers truthfully; SessionFate says when the session goes |
| RetryAgainstDaemon.SessionFate | antd/src/rest/upload.rs:484-583 | an unexpired session leaves the store only through an attempt that raises an error or stores all that was pending; a shortfall leaves the rest under the payment used; no other call touches it, and only attempts store chunks |
| RetryAgainstDaemon.AttemptOutcome | antd/src/rest/upload.rs:540-608 | a call that attempts succeeds if and only if all pending chunks were reached, the data map is stored and the response arrives; what else the client sees, case by case |
| RetryAgainstDaemon.RejectedLeavesNoTrace | antd/src/rest/upload.rs:622-625 | a call with artefacts the quotes do not accept is a 400, and any call after it ends as it would have without it |
| RetryAgainstDaemon.UnknownUpload | antd/src/rest/upload.rs:490-496 | an unknown or expired upload is a 404 that stores nothing |
| RetryAgainstDaemon.RunKeeps | antd/src/rest/upload.rs:633-700 | after any number of calls from a fresh prepare, each naming any payment, all that was stored was stored against one payment |
| RetryAgainstDaemon.FirstPaymentStays | antd/src/rest/upload.rs:670-690 | the payment of a whole retry run is the one its first call names, since a retained attempt ignores later ones |
| RetryAgainstDaemon.OutcomeMeans | antd-go/errors.go:94-123 | success means all stored; a retryable partial has stored plus failed equal to total and its attempt in place; a known not-retained partial has no session |
| RetryAgainstDaemon.StoredGrows | antd/src/rest/upload.rs:484-608 | the stored set never shrinks over a run |
| RetryAgainstDaemon.RunIsSafe | antd-cpp/examples/07-external-signer.cpp:126-169 | in every environment, whatever payments later calls name, a run stores only against its first call's payment, returns only when all is stored, and gives up as stuck only with the attempt in place and its size reported |
| RetryAgainstDaemon.RetryUpload | antd-cpp/examples/07-external-signer.cpp:126-169 | the retry loop itself, driven by the daemon, ends within 5 calls in a safe state: one payment, nothing lost, success only when complete, and an honest report otherwise |
| RetryAgainstDaemon.RetryFollowsProgress | antd-cpp/examples/07-external-signer.cpp:147-166 | each retry after the first follows a call that stored at least one more chunk |
| RetryAgainstDaemon.ProgressReturns | antd-cpp/examples/07-external-signer.cpp:126-169 | when nothing else fails and each call with chunks missing stores one, the loop returns if and only if five calls suffice to store every chunk |

## Left out

- HTTP, gRPC and TLS, timeouts and contexts, process spawning and pipes, the asynchronous client: input and output only.
- Full JSON parsing and printing: a shared reader `parse` and writer `render` stand for it, with the laws `Frames.ReadsJson` and `Download.Faithful`. A number in a download frame comes with what each client's 64-bit conversion makes of it, any value for either; one that nlohmann refuses outright is not modelled there.
- PartialErrors.ClientsBuildTheSameError: starts from a parsed document; beyond infinite doubles, inputs on which nlohmann and encoding/json disagree over being JSON at all (invalid UTF-8, lone surrogates, a byte order mark, nesting limits) are not modelled.
- PartialMessage.ClientsParseAlike: std::regex is taken to match its expression; its recursion limits on very long digit runs are not modelled.
- NdjsonPull.ClientsAgree: Go's base64 decoder also skips line ends inside a payload; payloads are taken as well formed or refused.
- Ndjson.DoStream: a connection lost in the middle of the body shows as a shorter body, since the code returns normally once a status has arrived.
- Unicode white space in trimming: only the ASCII characters are trimmed, which is all the two printers and readers exchange.
- ByteRange.RangeAsPromised: the body bytes of a REST range response are covered only for gRPC, by RangeDownload.DownloadRange, because both go through the same window plan.
- JsonCount.CountIsStrict: IEEE 754 rounding enters only through monotonicity and its two fixed points; which decimals a double can hold is not modelled.
- RetryAgainstDaemon.RunIsSafe: ant-core is an environment that may store any chunks and end in any way; a payment is what chunks are stored against, and the chain itself is not modelled. A request shaped for the other payment kind, which the daemon rejects without effect, is not modelled either.
- The fixed development key of the example signer is the parameter `key`, and the receipts that `cast` prints are parameters.
- The gRPC DownloadStream, drain_frames and their meta frame handling, the x-antd-retryable metadata, and the error-code trailer that only the pointer methods read: each is settled by reading one branch.
- Merkle payments, wallet, health, pointers, manifests and file routes: field copying with weaker properties.
