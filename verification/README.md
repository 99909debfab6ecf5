# A verified model of the Thread commissioner

This project models the protocol stack of a Thread commissioner in Dafny and proves
properties of it: the CoAP message codec and transaction engine, the MeshCoP TLV and
dataset codecs, the UDP proxy, the content a CCM commissioner signs, the state machines
above them, and two arithmetic kernels. `dafny verify dfyconfig.toml` checks all of it.

## How the model is laid out

- **Messages.** `CoapOption`, `UriPath`, `CoapMessage` and `ServiceUri` hold the codec of
  section 3 of RFC 7252. The option encoder computes the size of an option header against
  the nibble codes 13 and 14 and writes it against the offsets 13 and 269; its closing
  self-check then aborts the process. `Outcomes.Aborted` is that outcome. The format of
  section 3.1 of RFC 7252 is stated beside it, and the encoder is proved to meet the format
  exactly where the self-check lets it.
- **TLVs and datasets.** `Tlv`, `Datasets`, `DatasetCodec`, `DatasetRoundTrip`, `UdpProxy`
  and `Wire` take a dataset from its fields to the bytes of a proxied message and back.
  `Signing` is the canonical content of a signature.
- **Transactions.** `Requests` gives the client as functions on states and `RequestEngine`
  the same client as an object updated in place. `RequestLaws`, `RequestRuns` and
  `RequestTiming` prove what holds over every run. Handlers may re-enter the engine by
  cancelling all requests; the law about handler calls says exactly what that does.
  `CancelLoop` is about handlers that send again when they are cancelled. `Responses` is
  the server.
- **State machines.** `Commissioner` and `CommissionerRuns` (petition and keep-alive),
  `JoinerSessions`, `Dtls` and `DtlsRuns`, `Steering` over `BloomFilter`; `Timers` is shared.
- **Kernels.** `Crc16` and `Pbkdf2`.

A class in this model has the fields its C++ counterpart updates, a function `Now` that
gives its abstract state, and methods that are proved to take that state to the next one.
The laws are about the functions on states, so they hold of the objects too.

Clocks, random delays, tokens, the outcome of handing bytes to a socket or to the TLS
engine, and the answers of the application are parameters. Times are milliseconds.
Integers are unbounded in Dafny; 16-bit wrap-around and the cut of a TLV length to 8 bits
are written out.

## What the code does not do

Some promises turn out to be false of the code as it stands. For each there is the exact
condition under which it holds and, where a single input shows the failure, that input.

- An option whose delta or length lies in 14..268 aborts the encoder: `CoapOption.SerializeOption`,
  `CoapOption.FourteenByteSegmentAborts`.
- Splitting and re-joining a path is the identity exactly on canonical paths:
  `UriPath.RejoinIsIdentityIffCanonical`, `UriPath.TrailingSlashIsLost`.
- A malformed channel mask is not reported: `DatasetRoundTrip.MaskFlagIsTrueIffWellFormed`,
  `DatasetRoundTrip.MalformedMaskIsSilent`.
- A valid TLV cannot always be read back: `Tlv.ValidIsEncodable`, `Tlv.LongDomainPrefixIsLost`.
- Cancelling all requests does not end while a handler keeps sending: `CancelLoop.LoopEndsIff`.
- A handler that cancels all requests is called twice when a retransmission of its own
  request is refused: `RequestRuns.HandlerCalls`, `RequestRuns.StoppingHandlerIsCalledTwice`.
- A connect handler that disconnects when it hears of success is called twice:
  `DtlsRuns.AtMostOnce`, `DtlsRuns.LeavingHandlerIsCalledTwice`.
- A commissioner that is not active can have its keep-alive timer running, and the timer then ends
  the next petition: `CommissionerRuns.NoStaleTimerIff`, `CommissionerRuns.DisabledWithTimer`,
  `CommissionerRuns.StaleTimerEndsAPetition`.
- Starting a joiner session postpones the expiry of earlier ones, without bound:
  `JoinerSessions.StartMovesTheTimer`, `JoinerSessions.SessionsOutliveAnyDelay`.
- Enabling one joiner after all of them takes back the announcement of all:
  `Steering.WildcardAnnouncedIff`, `Steering.OneJoinerHidesTheWildcard`.
- Disabling the only joiner does not remove it, and disabling one of several announces the disabled
  one: `Steering.DisableRemovesIff`, `Steering.DisableAnnouncesIff`, `Steering.OnlyJoinerStays`.
- The signature of a multicast listener registration covers neither its timeout nor its addresses:
  `Signing.ListenerContent`.
- Two different sets of TLVs can have the same signed bytes when one has a long Domain Prefix:
  `Signing.ContentReadsBackIff`, `Signing.LongPrefixIsAmbiguous`.
- Zero PBKDF2 iterations give what two do: `Pbkdf2.Derive`.

The comment at src/library/coap.hpp:624-625 promises that the handler of a confirmable
request is called; the code calls it once or, in the case above, twice, and the model
follows the code.

## Model

| member | source | states |
|---|---|---|
| Bytes.Encode | src/common/utils.hpp:125-134 | the backwards-filling loop appends the base-256 digits of the number, most significant first |
| Bytes.Decode | src/common/utils.hpp:153-164 | the shifting loop returns the number its bytes stand for, which fits the width |
| Bytes.ValueOfBigEndian | src/common/utils.hpp:125-164 | decoding undoes encoding for every number that fits |
| Bytes.BigEndianOfValue | src/common/utils.hpp:125-164 | encoding undoes decoding for every byte string |
| CoapOption.SerializeOption | src/library/coap.cpp:343-407 | appends exactly the option of section 3.1 of RFC 7252 when delta and length are each at most 13 or at least 269; aborts for every other valid option; refuses an invalid one |
| CoapOption.DeserializeOption | src/library/coap.cpp:409-484 | reads the option at an offset, or fails as the specification parser does, never outside the buffer, and ends at an offset that has grown by the option's size |
| CoapOption.OptionRoundTrip | src/library/coap.cpp:343-484 | whatever the encoder emits, the decoder reads back as the same number and value, consuming exactly those bytes, whatever follows; the first byte is never the payload marker |
| CoapOption.ParseOptionIsRfc | src/library/coap.cpp:409-484 | conversely, every option the decoder accepts has a delta and length whose RFC encoding can be read off it |
| CoapOption.FourteenByteSegmentAborts | src/library/coap.cpp:361-401 | every valid Uri-Path segment of fourteen bytes aborts the encoder |
| UriPath.SplitUriPath | src/library/coap.cpp:1047-1082 | the loop returns the maximal slash-free pieces of the path, or a lone slash when there is none |
| UriPath.NormalizeUriPath | src/library/coap.cpp:1084-1128 | trims spaces, makes the path absolute and decodes percent escapes, including the hex digit that lacks its ten and the start index left over from trimming |
| UriPath.RejoinIsIdentityIffCanonical | src/library/coap.cpp:1047-1128 | splitting a path and appending its segments one by one gives the path back if and only if it is canonical |
| UriPath.TrailingSlashIsLost | src/library/coap.cpp:1047-1082 | of all paths that end with a slash, only the root is re-joined to itself |
| CoapMessage.Serialize | src/library/coap.cpp:1008-1045 | the walk over the option map writes header, options by ascending number, one per path segment, then marker and payload; the first failure is the outcome |
| CoapMessage.DeserializeHeader | src/library/coap.cpp:308-336 | the header at the start of any buffer and the offset behind it, or a format error when it ends early |
| CoapMessage.DeserializeOptions | src/library/coap.cpp:1140-1173 | the loop with its growing offset stops at the end or at the marker with the options accepted so far; an error of an elective option is ignored |
| CoapMessage.Deserialize | src/library/coap.cpp:1130-1196 | for every buffer, the message the parser specification gives, including a marker without payload as an error |
| CoapMessage.HeaderRoundTrip | src/library/coap.cpp:292-336 | a valid header is read back from its own bytes whatever follows, and takes four bytes and its token |
| CoapMessage.ParseSegments | src/library/coap.cpp:194-215 | reading the options of a path appends its segments in order, normalising each |
| CoapMessage.ParseOptionsOfBytes | src/library/coap.cpp:1008-1173 | reading serialised options delivers every option of the map with number `n` or more and stops exactly at their end |
| CoapMessage.ParseSerialized | src/library/coap.cpp:1008-1196 | every message that serialises is received with the same header and payload and the same options, its path split and re-joined |
| CoapMessage.MessageRoundTrip | src/library/coap.cpp:1008-1196 | a message that serialises is received unchanged if and only if its path, when it has one, is canonical |
| CoapMessage.ParsedSize | src/library/coap.cpp:1130-1196 | any parsed buffer is its header, a list of options in the RFC format from which the receiver made the option map, and the marker and payload, with no byte left over |
| CoapMessage.ParsedOptionsAreRfc | src/library/coap.cpp:1140-1173 | whatever the option loop accepts is a concatenation of RFC option headers and values, taken one after another, elective errors passed over |
| CoapMessage.ParsePieces | src/library/coap.cpp:1140-1173 | conversely, any list of options in that format is read in full with the outcome of taking them one after another |
| CoapMessage.SerialisesIff | src/library/coap.cpp:292-407 | a message serialises if and only if its header is valid, every option is one the encoder accepts, and every delta between neighbours and every length of a value or path segment is at most 13 or at least 269 |
| ServiceUri.PathSerialises | src/library/uri.hpp:46-81 | the options of every service URI of three letters are the same five bytes but for the letters |
| ServiceUri.RequestRoundTrip | src/library/uri.hpp:46-81 | a request to any such service, with any valid header and payload, serialises and is received unchanged |
| Tlv.Serialize | src/library/tlv.cpp:116-138 | appends type, length in the short or the extended form, and value |
| Tlv.Deserialize | src/library/tlv.cpp:140-180 | the TLV at an offset and the offset behind it, or a format error when it ends early |
| Tlv.GetTlvSet | src/library/tlv.cpp:393-418 | the loop gives the set of the valid TLVs of a stream, or the error of the first malformed one |
| Tlv.TlvRoundTripIffEncodable | src/library/tlv.cpp:116-180 | a TLV is read back from its bytes if and only if its length fits the form its type gets |
| Tlv.ValidIsEncodable | src/library/tlv.cpp:182-333 | among valid TLVs only a Domain Prefix of 255 bytes or more does not fit |
| Tlv.LongDomainPrefixIsLost | src/library/tlv.cpp:303-304 | a Domain Prefix of 255 bytes is valid and is not read back from its bytes |
| Tlv.ParsedTlvsAreValid | src/library/tlv.cpp:393-418 | whatever the wire holds, every TLV kept has the length its type demands |
| Tlv.ParseStream | src/library/tlv.cpp:393-418 | reading any list of encodable TLVs succeeds and gives their last-wins set, on top of what was read before |
| Tlv.ParseConcat | src/library/tlv.cpp:393-418 | reading distributes over the concatenation of well-formed streams |
| Tlv.ParseOnto | src/library/tlv.cpp:393-418 | a stream adds its own set to what was there, and overrides it |
| Datasets.TimestampRoundTrip | src/library/network_data.cpp:58-70 | a timestamp's seconds, ticks and U bit come back from its 64-bit number |
| Datasets.EncodeChannelMask | src/library/commissioner_impl.cpp:1672-1688 | the loop gives page, length and masks of every entry, or refuses an entry of 255 bytes or more |
| Datasets.DecodeChannelMask | src/library/commissioner_impl.cpp:1553-1582 | the loop reads the entries to the end of the buffer, or fails on one that ends early |
| Datasets.MaskRoundTrip | src/library/commissioner_impl.cpp:1553-1688 | a mask that encodes is read back entry by entry |
| Datasets.ParsedMaskEncodes | src/library/commissioner_impl.cpp:1553-1688 | a mask that was read encodes to the same bytes if and only if no entry has 255 bytes |
| Datasets.AppendTlv | src/library/commissioner_impl.cpp:1310-1323 | appends a valid TLV to the payload and refuses an invalid one |
| Datasets.ParseEncodedFields | src/library/commissioner_impl.cpp:1584-1669 | an encoded field table parses to the TLV set of its present fields, behind whatever the payload held |
| Datasets.FieldLookup | src/library/commissioner_impl.cpp:1437-1518 | in the TLV set of a table with distinct types, a field is found with its value if and only if it is present |
| DatasetCodec.EncodeActive | src/library/commissioner_impl.cpp:1584-1649 | appends the present fields in the order of the field table, stopping at the first refusal |
| DatasetCodec.EncodePending | src/library/commissioner_impl.cpp:1651-1670 | the Active fields, then delay timer and pending timestamp |
| DatasetCodec.EncodeCommissioner | src/library/commissioner_impl.cpp:1837-1883 | the present fields of a Commissioner dataset in the order of the field table |
| DatasetCodec.DecodeActive | src/library/commissioner_impl.cpp:1437-1518 | the dataset that the payload's TLV set describes with a flag per TLV, absent fields as a new dataset has them; an error for a malformed stream; success and no change for a malformed mask |
| DatasetCodec.DecodePending | src/library/commissioner_impl.cpp:1520-1551 | likewise for a Pending dataset, whose decoding goes on after a malformed mask |
| DatasetCodec.DecodeCommissioner | src/library/commissioner_impl.cpp:1775-1835 | the Commissioner dataset that the payload's TLV set describes, or an error |
| DatasetRoundTrip.ActiveRoundTrip | src/library/commissioner_impl.cpp:1437-1649 | an Active dataset that encodes is decoded without error, with the same known flags and every present field equal |
| DatasetRoundTrip.PendingRoundTrip | src/library/commissioner_impl.cpp:1520-1670 | the same for Pending datasets |
| DatasetRoundTrip.CommissionerRoundTrip | src/library/commissioner_impl.cpp:1775-1883 | the same for Commissioner datasets |
| DatasetRoundTrip.ActiveRequestRoundTrip | src/library/commissioner_impl.cpp:521-523 | the same for an Active dataset in a request, behind the session id |
| DatasetRoundTrip.PendingRequestRoundTrip | src/library/commissioner_impl.cpp:616-618 | the same for a Pending dataset in a request, behind the session id |
| DatasetRoundTrip.MaskFlagIsTrueIffWellFormed | src/library/commissioner_impl.cpp:1464-1468 | decoding any well-formed stream over a dataset without a mask reports success, and the channel-mask flag tells whether the TLV is there if and only if its value is a well-formed mask |
| DatasetRoundTrip.MalformedMaskIsSilent | src/library/commissioner_impl.cpp:1464-1468 | a mask of one byte is decoded to success with the output untouched |
| DatasetRoundTrip.MalformedMaskLosesActiveFields | src/library/commissioner_impl.cpp:1530-1546 | a malformed mask makes the Pending decoder leave every Active field as a new dataset has it and keep its own two, without an error |
| UdpProxy.Encapsulate | src/library/udp_proxy.cpp:56-85 | the UDP_TX message for a datagram; refused without an IPv6 peer or a connection, and when the datagram does not fit |
| DatasetCodec.GetTlv | src/library/tlv.cpp:420-431 | the value of a type if the buffer parses and holds a valid one, and nothing otherwise |
| UdpProxy.HandleUdpRx | src/library/udp_proxy.cpp:134-154 | sender, port and datagram when both TLVs are there, and a format error otherwise |
| UdpProxy.DecapsulateEncapsulated | src/library/udp_proxy.cpp:56-154 | decapsulation returns the address and datagram that were encapsulated, and the sender's port, for every datagram that fits |
| Wire.ProxiedRequest | src/library/udp_proxy.cpp:56-154 | every service request short enough for an encapsulation arrives unchanged through serialising, wrapping, serialising, parsing, unwrapping and parsing |
| Wire.EncodedSize | src/library/commissioner_impl.cpp:1310-1323 | encoding a field table adds at most 256 bytes per field |
| Wire.ActiveDatasetArrives | src/library/commissioner_impl.cpp:494-541 | end to end, every Active dataset that encodes behind a session id arrives through the proxy with its known flags and present fields |
| Wire.PendingDatasetArrives | src/library/commissioner_impl.cpp:597-636 | end to end for every Pending dataset that encodes behind a session id |
| Wire.CommissionerDatasetArrives | src/library/commissioner_impl.cpp:386-423 | end to end for every Commissioner dataset that encodes, its session id first |
| Signing.PrepareSigningContent | src/library/token_manager.cpp:395-439 | path options without a header, then the TLVs to be signed by ascending type; every failure of the source |
| Signing.SignatureIsNotSigned | src/library/commissioner_impl.cpp:1290-1307 | appending a token and a signature of any contents, or a signature alone, leaves the content as it was when it was signed |
| Signing.AppendUnsigned | src/library/token_manager.cpp:338-354 | appending any TLV that is not to be signed, or that the parser drops as invalid, leaves the content as it was |
| Signing.OrderDoesNotMatter | src/library/token_manager.cpp:425-433 | any two orders of TLVs of distinct types give the same content |
| Signing.DelayTimerIsNotSigned | src/library/token_manager.cpp:340-344 | two pending-set payloads that differ in the delay timer only have the same content |
| Signing.LeaderSeesTheSameContent | src/library/token_manager.cpp:411-418 | petition and keep-alive have the same content under the commissioner's and the leader's URI |
| Signing.ParseSigned | src/library/token_manager.cpp:425-433 | the TLV part of the content reads back as exactly the signed part of the set |
| Signing.SameContentIffSameSignedTlvs | src/library/token_manager.cpp:395-439 | under one URI, two payloads have the same content if and only if they agree on every TLV to be signed among those that parsing keeps, unless a Domain Prefix of 255 bytes or more is among these |
| Signing.SameContentIffSameRequest | src/library/token_manager.cpp:395-439 | over all services, two requests have the same content if and only if they are signed under the same URI and agree on every TLV to be signed among those that parsing keeps, with the same exception |
| Signing.SetRequestsSignNoPrefix | src/library/token_manager.cpp:338-349 | requests that set Active and Pending datasets never fall under the exception of the two rows above |
| Signing.ListenerContent | src/library/commissioner_impl.cpp:983-993 | a multicast listener registration with any timeout and addresses is signed over its path and session id alone |
| Signing.LongPrefixIsAmbiguous | src/library/tlv.cpp:116-138 | a payload whose signed Domain Prefix has 256 bytes has the same content as one with an empty prefix followed by a hostname TLV |
| Signing.ContentReadsBackIff | src/library/token_manager.cpp:425-433 | the TLV part of the content reads back as exactly the signed TLVs if and only if no Domain Prefix of 255 bytes or more is signed |
| Requests.DueFalls | src/library/coap.cpp:758-802 | every round of the retransmission loop leaves strictly fewer holders due before the captured time, so the loop ends |
| RequestEngine.Coap.UpdateTimer | src/library/coap.cpp:966-976 | stopped for an empty cache, started when it is not running or would fire too late, otherwise left alone |
| RequestEngine.Coap.Put | src/library/coap.cpp:935-939 | inserts behind all holders due no later, and updates the timer |
| RequestEngine.Coap.EliminateFirst | src/library/coap.cpp:941-950 | removes and returns the earliest holder, and updates the timer |
| RequestEngine.Coap.Eliminate | src/library/coap.cpp:952-964 | removes the first holder of a request, if any, and updates the timer |
| RequestEngine.Coap.Match | src/library/coap.cpp:978-1006 | the first holder that matches by message id or by token, depending on the type of the response |
| RequestEngine.Coap.FinalizeTransaction | src/library/coap.cpp:871-885 | the handler is cleared, called, possibly comes back through cancellation, and the request is removed |
| RequestEngine.Coap.FinalizeCopy | src/library/coap.cpp:786-800 | the same on a copy, whose original keeps its handler |
| RequestEngine.Coap.CancelRequests | src/library/coap.cpp:516-524 | the loop, entered again by handlers that cancel, ends in the state of the specification |
| RequestEngine.Coap.SendRequest | src/library/coap.cpp:551-575 | what happens to refused, unsendable, non-confirmable and confirmable requests, with the 16-bit message id |
| RequestEngine.Coap.HandleResponse | src/library/coap.cpp:679-750 | resets, empty and piggybacked acknowledgements, separate responses, and responses nothing matches |
| RequestEngine.Coap.Retransmit | src/library/coap.cpp:752-805 | the loop backs off, sends again, gives up or times out every holder due before now |
| RequestEngine.Coap.HandleTimer | src/library/timer.hpp:98-108 | a timer that fires is out of service before its action runs |
| RequestLaws.CancelAllIs | src/library/coap.cpp:516-524 | cancelling calls every waiting handler once, in due order, and leaves an empty cache and a stopped timer, even when handlers cancel |
| CancelLoop.RoundIs | src/library/coap.cpp:871-885 | a round of cancelling takes out the first request and, if the endpoint takes requests, puts in the one its handler sends; the cache stays ordered and without duplicates |
| CancelLoop.QuietLoopCancelsAll | src/library/coap.cpp:516-524 | when no handler sends, the loop of rounds does what cancelling is specified to do |
| CancelLoop.RoundsNeeded | src/library/coap.cpp:516-524 | a loop that ends takes one round for every request in the cache and every request that follows one, or only the former when the endpoint takes none |
| CancelLoop.LoopEndsIff | src/library/coap.cpp:516-524 | the loop ends if and only if the endpoint takes no requests or every handler stops sending at some point |
| RequestLaws.FinalizedIs | src/library/coap.cpp:871-885 | finalising a holder makes exactly one call of its own and removes only its request, unless its handler cancels the rest |
| RequestLaws.FinalizedCopyIs | src/library/coap.cpp:786-800 | finalising a copy calls the handler and then removes or cancels what is in the cache |
| RequestRuns.SendKeeps | src/library/coap.cpp:551-575 | sending preserves order, schedules, timer, transmission bound and the balance of calls, for its own and every other request |
| RequestRuns.ReceivedKeeps | src/library/coap.cpp:679-750 | so does every response; calls made and owed stay in balance |
| RequestRuns.FirstKeeps | src/library/coap.cpp:758-802 | so does every round of the retransmission loop, in all its outcomes |
| RequestRuns.CancelKeeps | src/library/coap.cpp:516-524 | so does cancelling |
| RequestRuns.RefusedKeeps | src/library/coap.cpp:784-792 | a refused retransmission adds one call too many exactly when the handler cancels all requests |
| RequestRuns.RunKeeps | src/library/coap.cpp:516-1006 | all invariants hold after every run of sends, responses, firings and cancellations |
| RequestRuns.HandlerCalls | src/library/coap.cpp:516-885 | over every run a handler has not been called while its request is cached, and afterwards exactly as often as promised, plus once if and only if a retransmission of its request was refused and it cancels all requests; it is then called exactly twice, and in no other case more than once |
| RequestRuns.ExactlyOnce | src/library/coap.hpp:624-626 | a handler that leaves the engine alone has been called exactly once when its confirmable request has left the cache |
| RequestRuns.TimerAfterRun | src/library/coap.cpp:966-976 | after every run the timer is stopped iff the cache is empty and otherwise fires no later than any holder is due; no request has two holders |
| RequestRuns.BackOffAfterRun | src/library/coap.cpp:765-800 | after every run a delay is the initial delay times two to the count, the count is at most four, and no request was transmitted more than five times |
| RequestRuns.StoppingHandlerIsCalledTwice | src/library/coap.cpp:784-792 | a run of one request and one refused retransmission that calls a handler twice |
| RequestTiming.RunPrompt | src/library/coap.cpp:486-497 | over every timely run each holder and each transmission keeps to the sum of its back-off delays plus the lateness so far |
| RequestTiming.TransmitSpan | src/library/coap.hpp:356-370 | if every expiry is handled within `e`, no transmission comes MAX_TRANSMIT_SPAN plus 4e or more after the retransmission clock started |
| Responses.CoapServer.Put | src/library/coap.hpp:725 | inserts behind all responses that expire no later |
| Responses.CoapServer.Match | src/library/coap.cpp:887-903 | the first cached response of the endpoint and message id |
| Responses.CoapServer.SendResponse | src/library/coap.cpp:577-595 | the response is given token, endpoint and, when unset, id of its request, is cached and sent |
| Responses.CoapServer.SendHeaderResponse | src/library/coap.cpp:807-835 | acknowledges a confirmable request, answers a non-confirmable one with a fresh id, ignores other types |
| Responses.CoapServer.HandleRequest | src/library/coap.cpp:637-677 | cached response, resource, default handler or not found, in this order |
| Responses.CoapServer.Clear | src/library/coap.cpp:905-909 | forgets all cached responses and nothing else |
| Responses.AnsweredIsCached | src/library/coap.cpp:577-595 | a response that is sent becomes the cached one for its id, unless an earlier one is |
| Responses.StepWhileCached | src/library/coap.cpp:637-677 | while a response is cached, no step replaces it, runs a handler for its id or does more to a repeated request than send it again |
| Responses.AtMostOnce | src/library/coap.cpp:577-677 | once a request is answered, through every later run that does not clear the cache, a repeated request gets the first cached response again and no handler runs for it |
| Commissioner.CommissionerImpl.OnPetitionResponse | src/library/commissioner_impl.cpp:1168-1210 | a reply with code 2.04, a payload that parses, a State TLV that says accept and a session id makes the commissioner active with that id and arms its timer; anything else disables it |
| Commissioner.CommissionerImpl.HandleStateResponse | src/library/commissioner_impl.cpp:1347-1366 | accepts exactly the replies with code 2.04 whose payload parses and holds a State TLV that says accept |
| Commissioner.CommissionerImpl.OnKeepAliveResponse | src/library/commissioner_impl.cpp:1242-1258 | a reply with code 2.04 and an accepting State TLV restarts the timer; anything else disables and resigns |
| Commissioner.CommissionerImpl.FinalizeTransaction | src/library/coap.cpp:871-885 | the handler of an outstanding request is cleared and run, and the request removed |
| Commissioner.CommissionerImpl.CancelRequests | src/library/coap.cpp:516-524 | the cancelling loop, which a failed keep-alive enters again through disconnection |
| Commissioner.CommissionerImpl.Disconnect | src/library/commissioner_impl.cpp:298-303 | link down, all requests cancelled, disabled |
| Commissioner.CommissionerImpl.SendPetition | src/library/commissioner_impl.cpp:1163-1234 | only a disabled commissioner petitions; a petition that cannot be sent disables it again |
| Commissioner.CommissionerImpl.SendKeepAlive | src/library/commissioner_impl.cpp:1236-1287 | only an active commissioner keeps alive, every other one is disconnected; one that cannot be sent resigns |
| Commissioner.CommissionerImpl.Resign | src/library/commissioner_impl.cpp:275-290 | says so when active, stops the timer and disconnects |
| Commissioner.CommissionerImpl.StartPetition | src/library/commissioner_impl.cpp:240-273 | at once when connected, after connecting otherwise, not at all when active |
| Commissioner.CommissionerImpl.Connect | src/library/commissioner_impl.cpp:292-296 | asks for a connection that no petition waits for |
| Commissioner.CommissionerImpl.OnConnected | src/library/commissioner_impl.cpp:244-254 | the link is up, and a petition goes out if one asked for it |
| Commissioner.CommissionerImpl.HandleTimer | src/library/timer.hpp:98-108 | the fired timer is off until a keep-alive arms it again |
| CommissionerRuns.CancelAllIs | src/library/commissioner_impl.cpp:1242-1258 | cancelling ends a waiting petition, and a waiting keep-alive also takes down connection, timer and all other requests |
| CommissionerRuns.FinalizedIs | src/library/coap.cpp:871-885 | an answer affects its own request only, except a failed keep-alive, which clears everything |
| CommissionerRuns.DisconnectedIs | src/library/commissioner_impl.cpp:298-303 | disconnecting disables and empties, and leaves the timer running if and only if it ran and no keep-alive was outstanding |
| CommissionerRuns.ResignedIs | src/library/commissioner_impl.cpp:275-290 | resigning always ends disabled, with nothing outstanding and the timer stopped |
| CommissionerRuns.OnlyDisconnectLeavesTimer | src/library/commissioner_impl.cpp:298-303 | of all events in all consistent states, exactly a disconnect with the timer running and no keep-alive outstanding leaves the timer running outside the active phase |
| CommissionerRuns.NoStaleTimerIff | src/library/commissioner_impl.cpp:240-303 | a run keeps the timer off outside the active phase all the way through if and only if it has no such disconnect |
| CommissionerRuns.StepConsistent | src/library/commissioner_impl.cpp:240-303 | every step keeps phase, outstanding requests and timer in agreement |
| CommissionerRuns.RunConsistent | src/library/commissioner_impl.cpp:1163-1287 | after every run: disabled means no petition and no keep-alive outstanding, petitioning exactly one petition and no keep-alive, active no petition and the timer armed |
| CommissionerRuns.OnlyAcceptanceActivates | src/library/commissioner_impl.cpp:1195-1197 | in every run, only a reply to the outstanding petition with code 2.04, an accepting State TLV and a session id TLV makes the commissioner active or changes its session id, which is the one whose two bytes it carries |
| CommissionerRuns.DisabledWithTimer | src/library/commissioner_impl.cpp:298-303 | a run that ends disabled with the keep-alive timer running |
| CommissionerRuns.StaleTimerEndsAPetition | src/library/commissioner_impl.cpp:1260-1286 | in every run, a timer that fires while petitioning ends the petition and the connection |
| CommissionerRuns.PetitionWithStaleTimer | src/library/commissioner_impl.cpp:240-303 | a run that petitions with such a timer running |
| JoinerSessions.Sessions.HandleRlyRx | src/library/commissioner_impl.cpp:2105-2149 | finds, replaces, refuses or starts the session of a joiner, and moves the timer to the expiry of a new one |
| JoinerSessions.Sessions.HandleTimer | src/library/commissioner_impl.cpp:2158-2194 | the loop over the map keeps exactly the unexpired sessions and arms the timer for the earliest of them, which is in the future, or leaves it stopped when none is left |
| JoinerSessions.TimerRunsWhileSessionsLast | src/library/commissioner_impl.cpp:2105-2194 | after every run, sessions left imply a running timer |
| JoinerSessions.LastExpiry | src/library/joiner_session.cpp:67-75 | no session expires, and the timer does not fire, later than a lifetime after the last relayed message |
| JoinerSessions.SilenceEndsAllSessions | src/library/commissioner_impl.cpp:2158-2194 | after a lifetime without relayed messages the next firing leaves no session |
| JoinerSessions.StartMovesTheTimer | src/library/commissioner_impl.cpp:2143 | after any run under a clock that does not go back, a newly started session leaves the timer in time for all sessions if and only if none is left that was started at an earlier instant |
| JoinerSessions.SecondJoinerDelaysTheFirst | src/library/commissioner_impl.cpp:2143 | two joiners one second apart, the first of which outlives its expiry by that second |
| JoinerSessions.ArrivalsStarveTheTimer | src/library/commissioner_impl.cpp:2143 | for any number of joiners less than a lifetime apart, a run ends with every session still there, expired or not, and a timer that no look at it up to the next arrival finds due |
| JoinerSessions.SessionsOutliveAnyDelay | src/library/commissioner_impl.cpp:2105-2194 | for every delay there is a run after which the first session has outlived its expiry by more than that, and the timer is still not due |
| JoinerSessions.StepIsFunction | src/library/commissioner_impl.cpp:2105-2194 | every step is possible and its result unique, so the runs above are all there are |
| Dtls.DtlsSession.Write | src/library/dtls.cpp:485-511 | a message taken whole succeeds, one taken in part or not at all waits, a fatal error stops |
| Dtls.DtlsSession.Send | src/library/dtls.cpp:568-592 | written at once, or queued behind what is queued; an error is reported only when nothing was accepted |
| Dtls.DtlsSession.TryWrite | src/library/dtls.cpp:513-526 | the loop writes the queue in order and stops at the first message that is not taken |
| Dtls.DtlsSession.Connect | src/library/dtls.cpp:275-281 | from an open session, remembers the handler |
| Dtls.DtlsSession.Disconnect | src/library/dtls.cpp:290-315 | tells the handler and reopens; the queue stays |
| Dtls.DtlsSession.Handshake | src/library/dtls.cpp:528-566 | completion tells the handler, a cookie exchange starts again with the same one |
| Dtls.DtlsSession.ReadLoop | src/library/dtls.cpp:389-395 | the loop delivers datagrams until reading fails, which it also does once the receiver has disconnected or the client has reconnected |
| Dtls.DtlsSession.HandleEvent | src/library/dtls.cpp:369-416 | handshake, reading and writing as far as they go, and disconnection on any error that is not busy, with a receiver that may send or disconnect in the middle |
| DtlsRuns.WriteConserves | src/library/dtls.cpp:485-511 | a message counts as written if and only if the write succeeds, and the wire grows by more only when a message is torn |
| DtlsRuns.SendConserves | src/library/dtls.cpp:568-592 | a message is accepted, at the end, if and only if sending reports success |
| DtlsRuns.FlushConserves | src/library/dtls.cpp:513-526 | flushing moves messages from the queue to the written ones and loses none |
| DtlsRuns.ReadConserves | src/library/dtls.cpp:444-483 | reading keeps the balance of messages whatever the receiver sends or ends meanwhile, and calls no connect handler of a connected session |
| DtlsRuns.RunConserves | src/library/dtls.cpp:249-592 | over every run, across busy writes and reconnections, messages accepted are, in order, those written and then the queue; the wire is exactly the written messages if and only if none was torn |
| DtlsRuns.WholeMessagesOnTheWire | src/library/dtls.cpp:485-511 | with an engine that takes all or nothing, the wire carries the written messages and nothing else |
| DtlsRuns.AtMostOnce | src/library/dtls.cpp:275-566 | over every run a connect handler that waits has not been called, and any other was called once, or exactly twice when it disconnects and some event completed the handshake it waited for |
| DtlsRuns.SucceedsIffCompleted | src/library/dtls.cpp:537-545 | in every run a handler has heard of success if and only if some event completed the handshake while it was pending |
| DtlsRuns.LeavingHandlerIsCalledTwice | src/library/dtls.cpp:537-545 | a run of one connection that calls such a handler twice |
| Steering.CommissionerApp.EnableJoiner | src/app/commissioner_app.cpp:230-261 | adds the joiner and its bits when the credential, the state and the network allow it, and changes nothing otherwise |
| Steering.CommissionerApp.DisableJoiner | src/app/commissioner_app.cpp:263-293 | the filter holds the disabled id once for every other entry, and the entry erased is the one of the id computed last, if any was |
| Steering.CommissionerApp.EnableAllJoiners | src/app/commissioner_app.cpp:295-322 | one byte of ones, and the wildcard in place of all joiners of the type |
| Steering.CommissionerApp.DisableAllJoiners | src/app/commissioner_app.cpp:324-343 | one byte of zeros, and no joiner of the type |
| Steering.CommissionerApp.EraseAllJoiners | src/app/commissioner_app.cpp:1068-1085 | erasing while iterating leaves exactly the joiners of other types |
| Steering.CommissionerApp.Stop | src/app/commissioner_app.cpp:101-112 | no joiners and the default dataset |
| Steering.CommissionerApp.Merge | src/app/commissioner_app.cpp:1145-1177 | fields the source has replace those of the dataset; steering data and ports it lacks lose their flag |
| Steering.CommissionerApp.AddJoiner | src/library/commissioner_impl.cpp:110-118 | adds an id to the filter, which is started afresh when it has another length than 16 |
| Steering.WithDatasetSets | src/app/commissioner_app.cpp:1022-1043 | merging back a draft changes the steering data and flag of one joiner type and no other |
| Steering.DisableRemovesIff | src/app/commissioner_app.cpp:263-293 | a joiner is removed if and only if the request goes through and some other entry exists; no other entry ever is |
| Steering.DisableAnnouncesIff | src/app/commissioner_app.cpp:263-293 | every joiner that stays enabled stays announced if and only if the request is refused, or the disabled joiner is not alone and the bits of its id cover those of all others of the type |
| Steering.OnlyJoinerStays | src/app/commissioner_app.cpp:263-293 | the only joiner stays enabled when it is disabled, and is no longer announced |
| Steering.RunKeysAreIds | src/app/commissioner_app.cpp:230-343 | after every run each entry is filed under the id of its EUI-64 |
| Steering.StepAnnounces | src/app/commissioner_app.cpp:230-343 | an operation keeps every enabled joiner announced if and only if it is not a disabling that goes through and is not harmless |
| Steering.RunAnnounces | src/app/commissioner_app.cpp:101-343 | after every run in which joiners are disabled harmlessly if at all, both filter bits of every enabled joiner but the wildcard are set in the announced steering data of its type |
| Steering.SafeWithoutDisabling | src/app/commissioner_app.cpp:101-343 | every run that disables no single joiner is one the row above speaks of |
| Steering.WildcardAnnouncedIff | src/app/commissioner_app.cpp:230-322 | after all joiners of a type were enabled, every device is announced if and only if no single joiner was enabled since, or those that were select all bits of the filter between them |
| Steering.EnableAllAnnouncesAll | src/app/commissioner_app.cpp:295-322 | enabling all joiners announces every device, and puts the wildcard in |
| Steering.OneJoinerHidesTheWildcard | src/library/commissioner_impl.cpp:110-118 | one joiner enabled after all of them leaves the wildcard enabled and no longer announced |
| BloomFilter.ComputeBloomFilter | src/library/openthread/bloom_filter.cpp:48-66 | the loop over two CRC registers sets the two bits the id selects |
| BloomFilter.MarkedSets | src/library/openthread/bloom_filter.cpp:43-46 | setting a bit sets it and leaves every other bit of the filter as it is |
| BloomFilter.AddedBits | src/library/openthread/bloom_filter.cpp:48-66 | adding an id sets the two bits it selects and no other |
| BloomFilter.AddedContains | src/library/openthread/bloom_filter.cpp:43-66 | an id that is added is contained, and so is every id that was |
| BloomFilter.AllSetContains | src/app/commissioner_app.cpp:310-311 | a filter with every bit set contains every id |
| Crc16.Register.Update | src/library/openthread/crc16.cpp:46-64 | the do-while loop is eight shifts with reduction of the register with the byte mixed in |
| Crc16.CrcIsLinear | src/library/openthread/crc16.cpp:46-64 | for every polynomial the CRC of the xor of two messages of one length is the xor of their CRCs |
| Crc16.AppendedCrcChecks | src/library/openthread/crc16.cpp:46-64 | for every polynomial a message followed by its CRC, high byte first, has CRC zero |
| Pbkdf2.DeriveBlock | src/library/openthread/pbkdf2_cmac.cpp:68-101 | two iterations at a time with a halved counter give the xor of all U_j of a block |
| Pbkdf2.Derive | src/library/openthread/pbkdf2_cmac.cpp:46-109 | the key is the first bytes of T_1, T_2 and so on of section 5.2 of RFC 8018, and nothing behind it is written |

## Left out

- RequestRuns.HandlerCalls: handlers that send new requests while they are called are not part of these runs; handlers that cancel all requests are. `CancelLoop` has handlers that send when they are cancelled.
- CancelLoop.LoopEndsIff: handlers that also cancel all requests are not part of this loop, and the endpoint does not change while it runs.
- Requests.DueFalls: counts holders that are due; that the library's clock advances is not modelled.
- Signing.SameContentIffSameRequest: has the same exception as the next line, and speaks of the services with two short path segments.
- Signing.SameContentIffSameSignedTlvs: does not cover a signed Domain Prefix of 255 bytes or more, whose length byte is ambiguous; `Signing.LongPrefixIsAmbiguous` shows that it cannot.
- Dtls.DtlsSession.HandleEvent: a receiver or connect handler that connects the session anew while it is called is not modelled; one that sends or disconnects is.
- Wire.ProxiedRequest: the border agent between the two sides is not modelled; the UDP_TX message itself is unwrapped.
- Wire.ActiveDatasetArrives: the fields that a set request must or must not have are not checked, and the token and signature that CCM mode appends are left to `Signing`; the same goes for Pending and Commissioner datasets.
- Commissioner.CommissionerImpl.StartPetition: the assertion that no connection is under way is a precondition.
- JoinerSessions.Sessions.HandleTimer: visits the sessions in any order, not in the order of their ids.
- Start and SyncNetworkData of the application, which overwrite steering data with the network's.
- The freed holder that `FinalizeTransaction` may still compare against after a handler has cancelled: memory is not modelled.
- The expiry timer of the response cache, which nothing starts.
- Token signing, COSE, CBOR, SHA-256, mbedtls, libevent and sockets: foreign code, taken as parameters or abstract functions.
- IPv6 text parsing, mesh-local prefixes and anycast locators of the proxy client.
- The BBR dataset and the merging of Active, Pending and BBR datasets: more of the same kind with fewer fields.
- The remaining MGMT request builders and the per-field getters and setters of the application.
- The thread-safe wrapper, the command line, JSON, logging, discovery and the Android application.
