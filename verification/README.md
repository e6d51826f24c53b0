# Verification models

Dafny models of the parts of this server where state, protocols and formats meet: two wire codecs of the vendored Discord
client, its stream parsers and queues, and several of the game's session state machines. Each model keeps the branches,
constants and error cases of the code it cites. Check everything with `dafny verify dfyconfig.toml`.

Most parts come as a pair. A specification on values says what the code does to its state, one step at a time, and properties
are stated of it for every input, every run and every interleaving. Beside it, a class or a method with the code's own
fields, arrays and loops is proved to do exactly that. What the outside decides is a parameter of the step: what a socket
takes, what the clock says, who stands nearby, what a database row holds.

| module | what it is |
|---|---|
| Bytes, Wrappers, Semicolons | integer layouts, options, text between semicolons |
| EtfTerm, EtfBuilder, EtfDecode, EtfParser, EtfGrammar | the Erlang external term format (of the ERTS User's Guide): builder and parser, and both in plain numbers |
| EtfPieces, EtfWalk, EtfReading, EtfRoundTrip, EtfLimits | its round trip, for every value, and the exact limits |
| WebSocketFrames, WebSocketClient | the frame layer of RFC 6455 |
| HttpChunks, HttpsClient | chunked and content-length bodies of RFC 9112 |
| RequestQueue, RequestQueueProofs | the rate-limited request queue: posters, in-threads and the out-thread as interleaved steps |
| VoiceOrder, VoiceCourier, VoiceRuns | the voice packets' 16-bit order, the parking lot, the drain and whole runs |
| BarbershopRules, Barbershop, BarbershopMgr, BarbershopCommands | prices and what is allowed, one player's session, the manager, the messages word by word |
| BotNpcIdle, BotNpcIdleStarts, BotNpcIdleDriver | one bot NPC's idle behaviour, what it starts when, one map's driver |
| Cameras, CameraEvents, CameraEffects, CameraRealm | cameras, viewpoints and the list that changes while it is gone through |
| Conditions, ConditionEnd, ConditionStore, ConditionRows | condition rows as formulas, evaluation in any store, their loading, and all of it in plain numbers |
| AccountLimits | the limits on instances an hour and on mails |
| Permissions | guild and channel permissions |
| SendPath | the sending half of a connection |
| Utf8Text | counting and cutting text by code points |
| NameList | the bot NPCs' names in messages of limited size |

Some properties one would expect do not hold of the code. Each of these is stated with the condition under which it does, an
input that shows it does not, or both:

- The builder writes the end of an empty array twice, so that it reads as two empty arrays. Which values survive that is said
  exactly: behind the first empty array, in writing order, there may be only empty arrays and ends of arrays, and these only
  where an end alone lies (`EtfRoundTrip.LossyRoundTrip`, `EtfWalk.SurvivesIsWalk`). `[[]]` comes back as null
  (`EtfLimits.NestedEmptyIsLost`); an even run of empty arrays at the end of an outermost array survives
  (`EtfLimits.ArrayWithEmpties`); `[[[],[]]]` does not, and `[[[],[]],[]]` does (`EtfLimits.InnerPair`).
- A body with a content length runs over it unless a read ends just there (`HttpChunks.ContentOverrun`), and trailer fields
  after the last chunk keep the client waiting (`HttpChunks.LastChunkEnds`).
- A masked frame is never consumed (`WebSocketClient.MaskedStays`), and a header for more than 65535 bytes does not fit
  the buffer its callers provide (`WebSocketClient.HeaderFits`).
- The voice order is one only up to 5001 numbers (`VoiceOrder.WindowLimit`); the next batch continues this one only if the
  latest arrival was also the last in order (`VoiceCourier.NextBatchContinues`).
- Where changing the hair's colour costs more than twice its style, and short of the money cap only there, some level and
  base price make a detour cheaper by more than the rounding (`BarbershopRules.DetoursPayIff`).
- Forgetting all idle rows at once leaves a custom scene running (`BotNpcIdle.ForgettingLeavesTheScene`).
- A NOT row's third and fourth values are evaluated but never checked, so a loaded row may be one whose evaluation never ends
  (`ConditionStore.NotMayReferToItself`). When it does is said for every call (`ConditionEnd.DeepEnough`) and, for all calls at
  once, by a ranking of the rows (`ConditionStore.LoadEnds`).
- Whether a condition can do without a player overlooks those values and swap flags: exactly when the answer is right is
  `Conditions.AnswerIsRightIff`, rows that show it wrong are `Conditions.SwapIsOverlooked` and `Conditions.ThirdIsOverlooked`.
- A limit of zero instances an hour lets one in (`AccountLimits.ZeroLetsOneIn`).

## Model

| member | source | states |
|---|---|---|
| EtfTerm.EmplaceBinds | source/dep/dpp/etf.cpp:353-365 | a member read into an object takes effect only if its key is not there yet: the first of two equal keys wins, all else stays |
| EtfBuilder.EtfBuffer.Write | source/dep/dpp/etf.cpp:46-55 | the growing buffer: whatever its size, the contents afterwards are the old contents and the bytes |
| EtfBuilder.AppendBigInt | source/dep/dpp/etf.cpp:89-103 | an integer written one digit at a time comes out as a SMALL_BIG_EXT with the fewest digits |
| EtfBuilder.AppendInt | source/dep/dpp/etf.cpp:642-656 | an integer is written by its size: one byte, a big integer or its low 32 bits |
| EtfBuilder.InnerBuild | source/dep/dpp/etf.cpp:640-710 | appends to the buffer exactly the external term of the value, or refuses for the first size that does not fit, for every value |
| EtfBuilder.Build | source/dep/dpp/etf.cpp:712-717 | a message is the version byte and the term; refused exactly when a size does not fit |
| EtfGrammar.AtomsWritten | source/dep/dpp/etf.cpp:657-671 | null, true and false are written as the atoms nil, true and false, byte by byte |
| EtfGrammar.IntWritten | source/dep/dpp/etf.cpp:642-656 | every integer, byte by byte: one byte, four in two's complement, or the shortest big integer, by literal bounds |
| EtfGrammar.FloatWritten | source/dep/dpp/etf.cpp:657-661 | a double is written as 70 and its eight bytes |
| EtfGrammar.TextWritten | source/dep/dpp/etf.cpp:672-679 | a text is written as 109, its length in four bytes and its bytes |
| EtfGrammar.ArrayWritten | source/dep/dpp/etf.cpp:680-696 | an array is written as 108, its length, its terms and 106; an empty one begins with another 106 |
| EtfGrammar.ObjectWritten | source/dep/dpp/etf.cpp:697-710 | an object is written as 116, its size and its keys as texts, each with its value |
| EtfGrammar.RefusedIff | source/dep/dpp/etf.cpp:680-704 | a value is refused exactly if some array or object in it has more than 2^32-2 entries, the outermost first |
| EtfBuilder.FitsIsBuilt | source/dep/dpp/etf.cpp:640-710 | a value whose strings, keys, arrays and objects fit the four-byte lengths is never refused |
| EtfDecode.Decode | source/dep/dpp/etf.cpp:569-625 | for every byte string and position: a success moves past at least one byte and never past the end, so parsing ends whatever lengths are declared |
| EtfDecode.NodeBound | source/dep/dpp/etf.cpp:569-625 | for every byte string: the value has no more nodes than bytes were consumed for it |
| EtfLimits.DecodeWellFormed | source/dep/dpp/etf.cpp:325-365 | for every byte string: what is returned is a proper value, with distinct keys in every object and every number in range |
| EtfParser.Parser.InnerParse | source/dep/dpp/etf.cpp:569-625 | the parser over its shared offset: returns the value the specification reads there and leaves the offset behind it, or throws the same error |
| EtfParser.Parser.Parse | source/dep/dpp/etf.cpp:627-638 | a whole message, from any state of the parser, with the version byte checked |
| EtfGrammar.Version | source/dep/dpp/etf.cpp:627-638 | any message: 131 and then one term, or else an error |
| EtfGrammar.SmallInteger | source/dep/dpp/etf.cpp:313-317 | tag 97 anywhere in any data: one unsigned byte |
| EtfGrammar.Integer | source/dep/dpp/etf.cpp:319-323 | tag 98: four bytes in two's complement |
| EtfGrammar.NewFloat | source/dep/dpp/etf.cpp:391-399 | tag 70: the eight bytes of a double |
| EtfGrammar.OldFloat | source/dep/dpp/etf.cpp:367-389 | tag 99: 31 bytes of text |
| EtfGrammar.BigInteger | source/dep/dpp/etf.cpp:401-447 | tags 110 and 111: a count, a sign and digits, least first, as signed decimal text; errors for more than eight and past the end |
| EtfGrammar.DigitPlaces | source/dep/dpp/etf.cpp:401-437 | each digit is what division by the power of its place leaves |
| EtfGrammar.DecimalIs | source/dep/dpp/etf.cpp:401-437 | decimal text has digits only, none before others is zero, and has the number's value |
| EtfGrammar.AtomTerm | source/dep/dpp/etf.cpp:275-311 | tags 100 and 115: nil, null, true and false by their letters, any other atom a text, null when it passes the end |
| EtfGrammar.BinaryTerm | source/dep/dpp/etf.cpp:449-457 | tag 109: a text of so many bytes, null when it passes the end |
| EtfGrammar.StringTerm | source/dep/dpp/etf.cpp:469-479 | tag 107: an array of the bytes' numbers |
| EtfGrammar.TupleOfTerms | source/dep/dpp/etf.cpp:345-347 | tags 104 and 105: an array of so many terms in a row, or the first error of theirs |
| EtfGrammar.NilTerm | source/dep/dpp/etf.cpp:349-351 | tag 106: an empty array |
| EtfGrammar.ListOfTerms | source/dep/dpp/etf.cpp:333-343 | tag 108: an array of so many terms if 106 follows, null if anything else does |
| EtfGrammar.MapOfTerms | source/dep/dpp/etf.cpp:353-365 | tag 116: null without pairs, else an object of its pairs in the order of their keys, the first of equal keys counting |
| EtfGrammar.KeyOrderIs | source/dep/dpp/etf.cpp:353-365 | that order is by unsigned bytes, a beginning first |
| EtfGrammar.ReferenceOrPort | source/dep/dpp/etf.cpp:514-550 | tags 101 and 102: node, number and creation, by these names |
| EtfGrammar.Process | source/dep/dpp/etf.cpp:552-559 | tag 103: node, number, serial and creation |
| EtfGrammar.NewReference | source/dep/dpp/etf.cpp:528-542 | tag 114: a count, node, creation and so many numbers |
| EtfGrammar.Export | source/dep/dpp/etf.cpp:561-567 | tag 113: module, function and arity |
| EtfGrammar.OtherTags | source/dep/dpp/etf.cpp:569-625 | every other tag is refused |
| EtfRoundTrip.TermAt | source/dep/dpp/etf.cpp:569-710 | a term in the midst of any bytes is read back as the normal form of its value, consuming exactly the term |
| EtfReading.ValueAt | source/dep/dpp/etf.cpp:569-710 | any value the builder writes, with the parser at its beginning or behind by left-over ends of arrays: it is read right, and the parser left where the walk says, exactly as far as the walk comes through; from there on what is read has another shape, if it is read at all |
| EtfWalk.SurvivesIsWalk | source/dep/dpp/etf.cpp:325-343 | the walk in closed form: a value comes through exactly if behind its first empty array, in writing order, come only empty arrays and ends of arrays, each of these where an end alone lies |
| EtfRoundTrip.LossyRoundTrip | source/dep/dpp/etf.cpp:627-717 | for every value the builder does not refuse: parse(build(j)) is j's normal form exactly if j survives, which can be told from j |
| EtfRoundTrip.SameAgain | source/dep/dpp/etf.cpp:627-717 | and it is j itself exactly if besides its integers fit 32 bits and it holds no empty object |
| EtfRoundTrip.RoundTrip | source/dep/dpp/etf.cpp:627-717 | parse(build(j)) is j's normal form for every value without empty arrays inside containers: empty objects become null, integers from 2^32-2 on their decimal text, and those outside 32 bits below that their low 32 bits, signed |
| EtfRoundTrip.FaithfulIsNormal | source/dep/dpp/etf.cpp:640-710 | a value is its own normal form exactly when its integers fit 32 bits and it holds no empty object |
| EtfRoundTrip.ExactRoundTrip | source/dep/dpp/etf.cpp:627-717 | parse(build(j)) is j itself exactly for those values |
| EtfLimits.BigIntExact | source/dep/dpp/etf.cpp:401-437 | a big integer of up to eight digits is read as its signed decimal text exactly when it is not a negative one below -2^63; for -2^63 itself with a negation that wraps |
| EtfLimits.NestedEmptyIsLost | source/dep/dpp/etf.cpp:333-343 | the input that fails: an array holding one empty array is read back as null |
| EtfLimits.ArrayWithEmpties | source/dep/dpp/etf.cpp:680-695 | so an array of clean values and then a first empty array survives exactly with nothing but empty arrays from there on, and an even number of them |
| EtfLimits.ObjectWithEmpty | source/dep/dpp/etf.cpp:325-365 | and an object whose first empty array is a member of its own exactly if that is its last member |
| EtfLimits.InnerPair | source/dep/dpp/etf.cpp:680-695 | inside another array an even number does not do: [[[],[]]] does not survive, while [[[],[]],[]] does |
| WebSocketFrames.DrainMore | source/dep/dpp/wsclient.cpp:172-264 | for all bytes: handling what has come, then the rest after the residue, is handling all at once |
| WebSocketFrames.CutsDoNotMatter | source/dep/dpp/wsclient.cpp:159-264 | for all bytes and every way of cutting them into reads: the same payloads in the same order, the same reason to stop, the same residue |
| WebSocketFrames.ResidueIsStuck | source/dep/dpp/wsclient.cpp:172-264 | what is left in the buffer holds no frame that could be taken: handling it again changes nothing |
| WebSocketFrames.FramesGetThrough | source/dep/dpp/wsclient.cpp:172-264 | section 5.2 of RFC 6455: every cutting of whole unmasked frames and the beginning of one more delivers the payloads in order; only a frame that makes fewer than four bytes with what follows stays behind |
| WebSocketFrames.Opcodes | source/dep/dpp/wsclient.cpp:172-264 | the front of any buffer in the numbers of section 5.2 of RFC 6455: 9 delivers a ping, 10 a pong, 0 to 2 data, each with the bytes its length says; 8 stops with its code, any other opcode with 0, and a mask for good |
| WebSocketClient.Client.ParseHeader | source/dep/dpp/wsclient.cpp:172-264 | one call takes exactly the frame at the front or leaves everything, and reports the error of a close frame; it says so when the length wraps around |
| WebSocketClient.Client.HandleBuffer | source/dep/dpp/wsclient.cpp:159-162 | the loop takes all whole frames; it ends, but for the masked frame on which the program's own loop does not |
| WebSocketClient.Client.ReadAll | source/dep/dpp/wsclient.cpp:122-165 | reads one after the other leave the client, and call the error callback, as the specification of a whole stream says |
| WebSocketClient.OneError | source/dep/dpp/wsclient.cpp:245-259 | however the reads are cut there is one error at most, reported again by every read from the one that completes its frame on |
| WebSocketClient.FillHeader | source/dep/dpp/wsclient.cpp:72-105 | writes exactly the client's header of that length and touches nothing behind it |
| WebSocketClient.ServerReads | source/dep/dpp/wsclient.cpp:72-105 | a reader following section 5.2 of RFC 6455 gets back opcode, length and a mask of zeros, for every length |
| WebSocketClient.HeaderFits | source/dep/dpp/wsclient.cpp:72-105 | the header fits the buffer its callers provide exactly for payloads of at most 65535 bytes |
| WebSocketClient.MaskedStays | source/dep/dpp/wsclient.cpp:190-195 | a masked frame is never consumed, whatever follows it |
| WebSocketClient.OwnFramesAreMasked | source/dep/dpp/wsclient.cpp:72-105 | the client's own frames are such, of every length |
| HttpChunks.SizeLine | source/dep/dpp/httpsclient.cpp:234-253 | a chunk size line of section 7.1 of RFC 9112 that writes n in digits of either case, zeros in front or not, with or without an extension, is read as n, or is invalid from 2^31 on |
| HttpChunks.WritesIs | source/dep/dpp/httpsclient.cpp:234-253 | each digit is what it is in 0123456789abcdef or 0123456789ABCDEF |
| HttpChunks.StoiReads | source/dep/dpp/httpsclient.cpp:239-246 | with white space, a sign or 0x in front, and anything behind, it is read as std::stoi reads it |
| HttpChunks.NoNumber | source/dep/dpp/httpsclient.cpp:239-246 | and anything else is no size |
| HttpChunks.Pump | source/dep/dpp/httpsclient.cpp:128-271 | the do/while loop ends for every state and buffer, by the length of the buffer and then the state |
| HttpChunks.CutsDoNotMatter | source/dep/dpp/httpsclient.cpp:204-254 | in the chunked states, for all bytes and every segmentation: the same state, body and answer as for all bytes at once |
| HttpChunks.ChunkedMessage | source/dep/dpp/httpsclient.cpp:204-254 | section 7.1 of RFC 9112: every segmentation of a chunked message without trailers ends done with the chunks' concatenation as the body |
| HttpChunks.RfcMessage | source/dep/dpp/httpsclient.cpp:204-254 | every chunked message of section 7.1 without trailers, sizes in either case, with zeros in front and extensions, however it is cut: done, with the chunks' data as the body |
| HttpChunks.PlainChunkIsGood | source/dep/dpp/httpsclient.cpp:234-253 | a chunk of 1 to 2^31-1 bytes with its plain hexadecimal size meets that theorem's condition |
| HttpChunks.HugeChunkIsRefused | source/dep/dpp/httpsclient.cpp:239-246 | a chunk of 2 GiB or more ends the connection with nothing added to the body |
| HttpChunks.LastChunkEnds | source/dep/dpp/httpsclient.cpp:220-233 | after the last chunk the message ends exactly when a line break follows at once: trailer fields leave the client waiting |
| HttpChunks.ContentTakesWholeReads | source/dep/dpp/httpsclient.cpp:255-263 | with a content length the body is the reads up to the one that reaches it, whole |
| HttpChunks.ContentOfExactLength | source/dep/dpp/httpsclient.cpp:255-263 | a body of exactly the announced length arrives whole however it is cut |
| HttpChunks.ContentOverrun | source/dep/dpp/httpsclient.cpp:255-263 | with bytes to spare, the body is what was announced exactly when a read ends there |
| HttpsClient.Client.OnePass | source/dep/dpp/httpsclient.cpp:128-271 | one pass of the switch over the fields is the specification's step |
| HttpsClient.Client.HandleBuffer | source/dep/dpp/httpsclient.cpp:128-271 | the loop in place: ends, in the specification's state, and says whether the connection goes on |
| HttpsClient.Client.ReadLoop | source/dep/dpp/sslclient.cpp:466-480 | reads appended and handled one after the other give the specification's outcome for the segments |
| RequestQueueProofs.StepKeeps | source/dep/dpp/queues.cpp:242-414 | every enabled step of posters, in-threads and out-thread keeps the queue's invariant |
| RequestQueueProofs.EveryInterleaving | source/dep/dpp/queues.cpp:242-414 | in every interleaving: a posted request is in exactly one place, in no other thread and no other endpoint's list, runs at most once, is called back at most once; one endpoint's requests run and are called back in post order; no run starts inside a wait |
| RequestQueueProofs.RunsExactlyWhenItMay | source/dep/dpp/queues.cpp:262-300 | in every interleaving: a thread at an endpoint runs it, once, exactly if it has no answer yet, its last one left an allowance, or the second after retry_after, or else reset_after, has come; and what runs is the first request posted that has not run |
| RequestQueueProofs.KeptAMinute | source/dep/dpp/queues.cpp:365-371 | a request called back is deleted from 60 seconds later on |
| RequestQueueProofs.PassTakesAll | source/dep/dpp/queues.cpp:252-262 | a pass goes through every endpoint of the thread once, with all of its requests in order |
| RequestQueueProofs.OneWayOn | source/dep/dpp/queues.cpp:262-334 | and leaves an endpoint only when it is done with or may not run |
| RequestQueueProofs.OnePlace | source/dep/dpp/queues.cpp:242-380 | a request's place counts: what has run is what is no longer waiting, what has been called back is what is to be deleted or deleted |
| RequestQueueProofs.RunsAreSpaced | source/dep/dpp/queues.cpp:268-305 | after an answer with nothing remaining the endpoint's next run starts later than retry_after after it, or than reset_after if there is no retry_after, in 64-bit arithmetic |
| RequestQueueProofs.PurgeIsExact | source/dep/dpp/queues.cpp:373-378 | a purge deletes exactly the requests whose time is over |
| RequestQueueProofs.PurgeLoop | source/dep/dpp/queues.cpp:373-378 | the loop that deletes from the front does just that |
| RequestQueueProofs.EraseCompleted | source/dep/dpp/queues.cpp:318-334 | the loop that erases one and starts over leaves every queue with its uncompleted requests, in order |
| RequestQueueProofs.HashLoop | source/dep/dpp/queues.cpp:401-414 | the loop over the characters computes the 32-bit hash by which an endpoint always goes to the same thread |
| RequestQueueProofs.HashIs | source/dep/dpp/queues.cpp:401-414 | the hash is the text's number in base 31 behind a leading 17, characters from 128 on negative, in 32 bits |
| RequestQueueProofs.CStringIs | source/dep/dpp/queues.cpp:401-414 | of the text up to its first zero byte |
| VoiceOrder.PriorityIsPosition | source/dep/dpp/discordvoiceclient.cpp:77-114 | in a circular window of at most 5001 numbers with timestamps that do not decrease, the comparison is the strict total order of positions, across the wrap |
| VoiceOrder.OrderIs | source/dep/dpp/discordvoiceclient.cpp:77-114 | for any two packets: the later timestamp, or else the higher number, comes later, but the last 5000 numbers come before the first 5000 |
| VoiceOrder.WindowLimit | source/dep/dpp/discordvoiceclient.cpp:77-114 | 5001 is the most: exactly the windows up to that length are in order when all timestamps agree |
| VoiceOrder.TimelineIsUnique | source/dep/dpp/discordvoiceclient.cpp:209-245 | there is one way to play a batch: a packet or a concealment for each number from the first to the last packet |
| VoiceCourier.Drain | source/dep/dpp/discordvoiceclient.cpp:209-245 | the drain ends for every batch and decodes every packet once; a batch in a window is played on its timeline, each packet in order and one concealment per gap |
| VoiceCourier.ParkingLot.Receive | source/dep/dpp/discordvoiceclient.cpp:720-748 | a packet is parked unless both its number and its timestamp are too low |
| VoiceCourier.ParkingLot.HandOver | source/dep/dpp/discordvoiceclient.cpp:158-169 | everything parked is handed over; the next batch starts behind the latest arrival |
| VoiceCourier.NothingIsLost | source/dep/dpp/discordvoiceclient.cpp:155-245 | over every run of arrivals and deliveries: what did not come too late is decoded exactly once, dropped in a delivery without handlers, or still parked |
| VoiceRuns.LotIsTold | source/dep/dpp/discordvoiceclient.cpp:720-748 | over every run: the range is the first arrival's until a flush, then one more than the latest packet let in before the last flush; what waits is what was let in since |
| VoiceRuns.WhatIsPlayed | source/dep/dpp/discordvoiceclient.cpp:155-245 | over every run: a delivery decodes exactly the packets let in since the flush before, each once, and on their timeline when they fit a window |
| VoiceRuns.PacketsFate | source/dep/dpp/discordvoiceclient.cpp:155-245 | over every run: a packet is decoded, dropped unheard or still parked exactly if at an arrival its number or its timestamp was not below the range |
| VoiceCourier.ParkingLot.Deliver | source/dep/dpp/discordvoiceclient.cpp:155-245 | one turn of the courier for a speaker: everything parked is handed over and drained, or dropped when there are no handlers |
| VoiceCourier.NextBatchContinues | source/dep/dpp/discordvoiceclient.cpp:155-170 | the next batch goes on where this one ended exactly when the latest arrival was the last packet played |
| BarbershopRules.Cost | source/src/game/BarbershopMgr.cpp:181-201 | whatever the prices, level and looks, a price stays within the money cap |
| BarbershopCommands.PriceIs | source/src/game/BarbershopMgr.cpp:181-201 | a change costs the sum of its parts' percentages of the base for the level, a colour being free with a new style, up to the cap |
| BarbershopCommands.PriceOfOneChange | source/src/game/BarbershopMgr.cpp:181-201 | one part changed alone costs its own percentage |
| BarbershopCommands.DefaultPrices | source/src/game/BarbershopMgr.cpp:169-179 | with the default settings the prices the comment gives: 5 copper at level 1, 18000 at 60 |
| BarbershopRules.CostTriangle | source/src/game/BarbershopMgr.cpp:181-201 | at prices where colour costs at most twice style, a detour over a third look saves at most the one copper lost to rounding |
| BarbershopRules.NoCheaperWay | source/src/game/BarbershopMgr.cpp:181-201 | k purchases cost at least the direct price less k-1 copper |
| BarbershopRules.DearColourIsCheapened | source/src/game/BarbershopMgr.cpp:181-201 | with a dearer colour that is false from a base of 200 at that level on: changing the style there and back changes the colour for less, by more than the rounding allows |
| BarbershopRules.DetoursPayIff | source/src/game/BarbershopMgr.cpp:181-201 | exactly then: at percentages short of the money cap, there is a level and a base at which a detour pays if and only if colour costs more than twice style |
| Barbershop.PreviewTellsThePrice | source/src/game/BarbershopMgr.cpp:439-462 | the price sent with a preview is what buying that preview then takes, and the look bought is the look shown |
| Barbershop.EventKeeps | source/src/game/BarbershopMgr.cpp:323-514 | every event keeps a session coherent: original is the real look, the client shows the preview, every part of it is allowed; closing with notice leaves the client showing the real look |
| Barbershop.MoneyIsAccountedFor | source/src/game/BarbershopMgr.cpp:439-462 | over every run: the money lost is the sum of the prices, by the level then and the look everyone sees before and after, of the purchases the client was told of, less what was earned elsewhere |
| Barbershop.EventPays | source/src/game/BarbershopMgr.cpp:439-462 | money and the real look change only by a purchase, at the price of just that change, and by what happens elsewhere |
| Barbershop.NoBargain | source/src/game/BarbershopMgr.cpp:439-462 | over every run that stays at one level: what the purchases took is at least the direct price from the first look to the last, less a copper for each but one |
| BarbershopMgr.SplitFields | source/src/game/BarbershopMgr.cpp:115-127 | the loop gives exactly the fields between semicolons |
| BarbershopMgr.Manager.HandleCommand | source/src/game/BarbershopMgr.cpp:379-479 | each command in place is the state machine's, with a session or without |
| Semicolons.SplitIsExact | source/src/game/BarbershopMgr.cpp:115-127 | joining the fields gives the text back |
| Semicolons.JoinIsExact | source/src/game/BotNpc.cpp:847-871 | and splitting joined names gives the names back |
| BarbershopMgr.Character.Show | source/src/game/BarbershopMgr.cpp:240-274 | the client is sent the look over its real fields, and only what changed |
| BarbershopMgr.Character.Apply | source/src/game/BarbershopMgr.cpp:212-238 | the real fields take the look, and the client what changed of them |
| BarbershopMgr.Manager.Open | source/src/game/BarbershopMgr.cpp:323-356 | opening makes a session of the real look, unless there is one; the count stays the number of sessions |
| BarbershopMgr.Manager.CloseFor | source/src/game/BarbershopMgr.cpp:358-367 | closing takes the preview back and the session away, for this player only |
| BarbershopMgr.Manager.HandleAddonMessage | source/src/game/BarbershopMgr.cpp:369-479 | any message: handled exactly if it has the prefix in guild chat, and then as the one player's state machine says, leaving everyone else alone |
| BarbershopCommands.MessageMeans | source/src/game/BarbershopMgr.cpp:369-477 | the prefix and each of the nine words, letter by letter, and the command it is; any other word does nothing |
| BarbershopCommands.ValueIs | source/src/game/BarbershopMgr.cpp:398-399 | a value is the number its field begins with |
| BarbershopCommands.CommandDoes | source/src/game/BarbershopMgr.cpp:390-477 | what each command leaves as preview, look and money, and tells the client, with what is offered by its own numbers |
| BarbershopCommands.NothingOpen | source/src/game/BarbershopMgr.cpp:379-388 | without a session everything but a close is refused with error 1 |
| BarbershopCommands.OpeningDoes | source/src/game/BarbershopMgr.cpp:323-356 | who gets a session, and that it begins with the look they have |
| BarbershopCommands.ComingAndGoing | source/src/game/BarbershopMgr.cpp:323-514 | words count from those online only; a player who gets up is closed with notice, one who logs out without |
| BarbershopCommands.ApplyTells | source/src/game/BarbershopMgr.cpp:212-238 | of the real fields the client is sent what has changed, and nothing but the five parts and the scale changes |
| BarbershopCommands.LookIs | source/src/game/BarbershopMgr.cpp:54-59 | where in the two fields the five parts are |
| BarbershopCommands.LimitsAre | source/src/game/BarbershopMgr.cpp:98-126 | the limits of the first five races, man and woman, and of nobody else |
| BarbershopCommands.MoreLimits | source/src/game/BarbershopMgr.cpp:98-126 | and of the other five |
| BarbershopMgr.Manager.Update | source/src/game/BarbershopMgr.cpp:481-501 | with the early way out on a count of zero the outcome is still that of the full lookup |
| BarbershopMgr.Manager.OnLogout | source/src/game/BarbershopMgr.cpp:503-514 | logging out ends the session without notice and with the real fields untouched |
| BotNpcIdle.TimelinesAreSpaced | source/src/game/BotNpcIdle.cpp:187-491 | over every run in which passes see the NPC: timelines of loop, near, after-talk and emotes never overlap, the same trigger or emote starts no sooner than its period, and the row is kept |
| BotNpcIdle.RowIsKept | source/src/game/BotNpcIdle.cpp:89-144 | a row goes exactly in a pass that did not see the NPC or saw it without rules, at another second than the last sight; an NPC with emote rules only is stamped and keeps all else |
| BotNpcIdle.NeverIdle | source/src/game/BotNpcIdle.cpp:256-393 | an NPC that is due, free and not talked to starts something in that very tick |
| BotNpcIdleStarts.TickStarts | source/src/game/BotNpcIdle.cpp:256-393 | every tick starts exactly what is on, due and free: the parting line, the greeting, the chores, in this order, for whom, with their lengths, and sets their clocks |
| BotNpcIdleStarts.InsideIs | source/src/game/BotNpcIdle.cpp:332-373 | and keeps as inside exactly those found who count |
| BotNpcIdleStarts.SceneStarts | source/src/game/BotNpcIdle.cpp:277-294 | the custom scene is started, and the one before stopped, exactly in a generation it was not started in |
| BotNpcIdleStarts.EmoteStarts | source/src/game/BotNpcIdle.cpp:187-254 | an emote with a rule, from somebody seen and near, is answered exactly if its own clock and the NPC are free |
| BotNpcIdleStarts.EmoteIsIgnored | source/src/game/BotNpcIdle.cpp:187-225 | any other changes nothing |
| BotNpcIdleStarts.AfterAClick | source/src/game/BotNpcIdle.cpp:147-330 | after a click the NPC starts nothing for twenty seconds while the talker is in range, and then parts from them |
| BotNpcIdle.GreetsArrivals | source/src/game/BotNpcIdle.cpp:332-379 | who is greeted was not inside at the last tick that looked and is now |
| BotNpcIdle.OneGreetingAVisit | source/src/game/BotNpcIdle.cpp:332-379 | over every run: somebody who came in is not greeted again while they stay |
| BotNpcIdle.OneSceneAtATime | source/src/game/BotNpcIdle.cpp:405-455 | over every run: the scenes running are the one the row names, once, and none without a row; the sweep stops it too |
| BotNpcIdle.ForgettingLeavesTheScene | source/src/game/BotNpcIdle.cpp:67-74 | dropping all rows at once stops no scene: that is right exactly for an NPC without one |
| BotNpcIdle.OncePerGeneration | source/src/game/BotNpcIdle.cpp:282-294 | while the NPC keeps its row the custom scene is started at most once in each generation of the rules |
| BotNpcIdleDriver.Driver.TickFor | source/src/game/BotNpcIdle.cpp:256-393 | the tick in place is the specification's, for this NPC only |
| BotNpcIdleDriver.Driver.Update | source/src/game/BotNpcIdle.cpp:52-145 | a pass leaves every NPC, met or not, as its own state machine says: seen, then swept |
| BotNpcIdleDriver.Driver.ReceiveEmoteAt | source/src/game/BotNpcIdle.cpp:187-254 | an emote in place, with everyone who is refused an answer |
| BotNpcIdleDriver.Driver.NoteTalkOf | source/src/game/BotNpcIdle.cpp:147-158 | a click is noted for an NPC that has a row and makes none |
| BotNpcIdleDriver.Driver.LookAround | source/src/game/BotNpcIdle.cpp:341-373 | the loop over those found gives the set inside and the first new arrival |
| CameraEvents.OnOneList | source/src/game/Camera.cpp:29-135 | in every reachable state a camera is on exactly one viewpoint's list, once: its source's |
| CameraEvents.EventKeeps | source/src/game/Camera.cpp:29-135 | every event keeps that, every camera in its source's grid, viewers in their object's map, and objects active exactly while flagged or looked from |
| CameraEvents.EveryCameraIsCalled | source/src/game/Camera.h:95-105 | every camera on the list when an event comes is treated once, though handlers take cameras off the list; those that stay keep their order |
| CameraEvents.OnlyItsOwnIsLeft | source/src/game/Camera.h:121-125 | when an object leaves the world only its own camera is left with it, and every other is on its owner's list |
| CameraEvents.GoneIsAlone | source/src/game/Camera.cpp:34-41 | in every reachable state, what is outside the world is looked from by no one else, and its own camera looks from it: what the destructor asserts |
| CameraEffects.LookDoes | source/src/game/Camera.cpp:58-98 | a look at something visible on the same map: off the one list, at the end of the other, with its grid and a picture, the one object active and the other maybe no more |
| CameraEffects.LookFails | source/src/game/Camera.cpp:58-76 | and otherwise nothing at all |
| CameraEffects.LookHomeIsLook | source/src/game/Camera.cpp:106-109 | going home is a look at oneself |
| CameraEffects.AppearDoes | source/src/game/Camera.cpp:29-32 | a new player has a camera that looks from the player |
| CameraEffects.ArriveDoes | source/src/game/Camera.cpp:111-118 | coming into the world: place, grid and activity of the object, grid and picture of its own camera, and nothing of any other |
| CameraEffects.CrossDoes | source/src/game/Camera.cpp:131-135 | another grid: exactly the cameras that look from the object get it |
| CameraEffects.BlinkDoes | source/src/game/Camera.cpp:100-104 | exactly the cameras whose owners cannot see it any more are sent home |
| CameraEffects.StirDoes | source/src/game/Camera.h:139-142 | exactly the cameras that look from it bring a picture |
| CameraEffects.DepartDoes | source/src/game/Camera.cpp:120-129 | leaving the world: exactly the cameras that look from the object are sent home, its own loses its grid |
| CameraEffects.VanishDoes | source/src/game/Camera.cpp:34-41 | outside the world an object goes with its camera |
| Cameras.TwiceWouldNotDo | source/src/game/Camera.h:92-105 | why once matters: with a camera twice on a list the iterator moved on in advance would be gone |
| CameraRealm.Realm.Detach | source/src/game/Camera.cpp:78-80 | a camera taken off its source's list by value; the object is active no more if that was the reason |
| CameraRealm.Realm.Attach | source/src/game/Camera.cpp:84-87 | a camera put at the end of a list; the object is active from then on |
| CameraRealm.Realm.ViewFrom | source/src/game/Camera.cpp:58-98 | SetView in place, with its three early ways out |
| CameraRealm.Realm.HandleOne | source/src/game/Camera.cpp:100-135 | the handlers in place |
| CameraRealm.Realm.CameraCall | source/src/game/Camera.h:95-105 | the loop with the iterator moved on before each call never steps from a camera that has left, and comes to the same as calling each camera first listed |
| Conditions.MeetsIsFormula | source/src/game/Conditions.cpp:125-185 | for every store whose rows refer down: evaluation ends and is what the row's formula says, flags, third and fourth conditions included |
| Conditions.SwapsPushDown | source/src/game/Conditions.cpp:130-131 | a swap of the whole is a swap at every leaf, always |
| Conditions.NotsPushDown | source/src/game/Conditions.cpp:142-143 | a reversal of the whole is one at every leaf with and and or changed about, when every leaf's parameters are satisfied |
| Conditions.ReversingALeaf | source/src/game/Conditions.cpp:133-145 | at a leaf exactly then: with the wrong parameters it is not met, reversed or not |
| Conditions.FlagsPushDown | source/src/game/Conditions.cpp:125-185 | so a row means the formula with every flag at the leaves |
| Conditions.TargetFreeIff | source/src/game/Conditions.cpp:125-145 | with a source at hand, leaving the target out changes no leaf's parameter check exactly if no leaf looks at the target, the swaps above it counted in |
| Conditions.AnswerIsRightIff | source/src/game/Conditions.cpp:1428-1456 | whether a row can be used without a player is answered right exactly if its flags and its third and fourth conditions make no difference to that, for every store that refers down |
| Conditions.AnswerIsRight | source/src/game/Conditions.cpp:1428-1456 | without swap flags: the row can do without a target exactly if the answer is yes and its third and fourth conditions can, all the way down |
| Conditions.PlainAnswer | source/src/game/Conditions.cpp:1428-1456 | so for a row that refers to neither swaps nor extras the answer is right both ways |
| Conditions.SwapIsOverlooked | source/src/game/Conditions.cpp:1428-1456 | with a swap flag that fails: the row that shows it |
| Conditions.ThirdIsOverlooked | source/src/game/Conditions.cpp:1438-1440 | with a third condition that fails: the row that shows it |
| ConditionStore.LoadIsFinal | source/src/game/ObjectMgr.cpp:9816-9833 | loading keeps exactly the rows that check out against what is left in the end |
| ConditionEnd.DeepEnough | source/src/game/Conditions.cpp:125-185 | in any store, whatever refers to what: calls twice as deep as there are rows tell whether evaluating a row gives an answer, looks up a row that is not there, or never ends |
| ConditionEnd.RankEnds | source/src/game/Conditions.cpp:125-185 | there is an answer for every row, world and arguments if some ranking falls along all references |
| ConditionEnd.TrapNeverEnds | source/src/game/Conditions.cpp:149-185 | and none at any depth for rows whose first look-ups stay among themselves |
| ConditionEnd.EvalIsMeets | source/src/game/Conditions.cpp:125-185 | where all rows refer down that evaluation is the one above |
| ConditionStore.LoadIsSound | source/src/game/Conditions.cpp:796-865 | after loading all rows refer down exactly if the third and fourth values of the NOT rows do, which nobody checks |
| ConditionStore.LoadEnds | source/src/game/Conditions.cpp:796-865 | after loading every evaluation gives an answer, whatever the world, if those values fall in a ranking that no reference climbs |
| ConditionStore.NotMayReferUp | source/src/game/Conditions.cpp:796-810 | a NOT row whose third value is a higher row passes the check, and evaluation ends all the same |
| ConditionStore.NotMayReferToItself | source/src/game/Conditions.cpp:796-810 | a NOT row whose third value is itself passes the check, and evaluating it never ends, whatever the world and the arguments |
| ConditionStore.DisabledIs | source/src/game/Conditions.h:357 | a disabled row is met exactly when it was reversed |
| ConditionStore.Storage.IsValid | source/src/game/Conditions.cpp:792-865 | the check in place, which may put the empty condition in the row's place |
| ConditionStore.Storage.LoadConditions | source/src/game/ObjectMgr.cpp:9816-9833 | the loop in place |
| ConditionRows.RowMeans | source/src/game/Conditions.cpp:125-190 | each row in plain numbers: not, or, and, the empty row and the others, with third and fourth conditions, swap and reversal |
| ConditionRows.KindsAsk | source/src/game/Conditions.cpp:50-118 | the table of what each of the 63 kinds is checked for, entry by entry |
| ConditionRows.LoadKeeps | source/src/game/Conditions.cpp:792-865 | exactly which rows are loaded, and as what |
| AccountLimits.NoMoreInAnyHour | source/src/game/AccountMgr.cpp:674-715 | over every run of checks and entries, of instances the account is bound to and of new ones: no more different instances entered in any 3600 seconds than the limit, if it is at least one |
| AccountLimits.ZeroLetsOneIn | source/src/game/AccountMgr.cpp:674-678 | a limit of zero lets one in |
| AccountLimits.RefusedIff | source/src/game/AccountMgr.cpp:674-701 | a refusal comes exactly to a new instance on a full list used within the hour, and changes nothing |
| AccountLimits.CheckLeaves | source/src/game/AccountMgr.cpp:674-701 | a new instance on a full list takes the place of the entry with the lowest number of those over an hour old, and of no other |
| AccountLimits.CheckedIs | source/src/game/Maps/MapManager.cpp:269-276 | on a full recent list a visit goes in exactly if its instance, or number 0 when the account is not bound to one, is on it |
| AccountLimits.NoMoreFirstsInAnyWindow | source/src/game/AccountMgr.cpp:788-807 | over every run of mails: no more first-ever recipients in any window of the expiry's length than the limit, although those mailed before are not checked |
| AccountLimits.AccountMgr.CheckInstanceCount | source/src/game/AccountMgr.cpp:674-701 | the check in place, with the first entry over an hour old making room |
| AccountLimits.AccountMgr.AddInstanceEnterTime | source/src/game/AccountMgr.cpp:703-715 | an entry sets this instance's time on this account's list, made if need be, and nothing else |
| AccountLimits.AccountMgr.VisitFor | source/src/game/Maps/MapManager.cpp:269-276 | a check before the teleport, under number 0 while the account is not bound to an instance, and the entry after it are the visit of which the limit is proved, for this account only |
| AccountLimits.AccountPersistentData.SendMail | source/src/game/Handlers/MailHandler.cpp:418-437 | a mail is recorded exactly if it may be sent: the step of which the limit is proved, a new recipient being a first |
| AccountLimits.AccountPersistentData.MayMail | source/src/game/AccountMgr.cpp:793-807 | the count over the map decides as specified |
| AccountLimits.MayBeMailed | source/src/game/AccountMgr.cpp:793-807 | whoever was mailed before may be mailed; anybody else exactly while fewer than the limit were mailed since the expiry |
| Permissions.BitsAreGranted | source/dep/dpp/guild.cpp:616-729 | each permission bit is granted as the order of precedence says: member, roles, everyone, base; among roles one that allows is enough |
| Permissions.BaseIsGranted | source/dep/dpp/guild.cpp:590-614 | each base bit: an owner has all, and so has who has the administrator bit by some role, else what some role gives |
| Permissions.OrderDoesNotMatter | source/dep/dpp/guild.cpp:590-729 | permuting or repeating a member's roles changes nothing |
| Permissions.BothWaysAgree | source/dep/dpp/guild.cpp:616-729 | asked by user with the base permissions or by member, the answer is the same exactly if the member is cached or has nothing |
| Permissions.BasePermissions | source/dep/dpp/guild.cpp:590-614 | the loop over the roles |
| Permissions.PermissionOverwrites | source/dep/dpp/guild.cpp:616-674 | the loops over roles and overwrites with their breaks, by user |
| Permissions.MemberPermissionOverwrites | source/dep/dpp/guild.cpp:676-729 | and by member |
| SendPath.NothingIsLost | source/dep/dpp/sslclient.cpp:349-580 | over every run of writes and rounds: on the wire, in the buffer and in the queue is everything written, in order, and the live part stays inside the buffer |
| SendPath.WireIsAPrefix | source/dep/dpp/sslclient.cpp:349-580 | what is on the wire is always the beginning of what was written |
| SendPath.LineDrains | source/dep/dpp/sslclient.cpp:528-580 | with a socket that always takes something, as many rounds as bytes put everything on the wire |
| SendPath.RoundIs | source/dep/dpp/sslclient.cpp:528-580 | what one round does: how much an empty buffer takes, when a send is tried, and what each outcome leaves |
| SendPath.SslClient.Put | source/dep/dpp/sslclient.cpp:349-371 | a write in either mode |
| SendPath.SslClient.PollOnce | source/dep/dpp/sslclient.cpp:528-580 | a round over the 16 KiB buffer in place |
| Utf8Text.Utf8Len | source/dep/dpp/utility.cpp:257-293 | on well-formed text (section 3 of RFC 3629) without NUL, the loops count the code points |
| Utf8Text.Utf8Prefix | source/dep/dpp/utility.cpp:295-329 | from the start, the first n code points or all of them if there are fewer |
| Utf8Text.Validate | source/dep/dpp/utility.cpp:343-350 | too short is refused, anything else comes back with between least and most code points |
| Utf8Text.TableIsExact | source/dep/dpp/utility.cpp:257-293 | what counts as a character is exactly the encoding of a code point (section 3 of RFC 3629) other than NUL |
| Utf8Text.OneReading | source/dep/dpp/utility.cpp:257-293 | well-formed text has one reading as code points |
| NameList.NamesArrive | source/src/game/BotNpc.cpp:847-904 | for every list of non-empty names without semicolons: all arrive in order and whole, in bodies of at most 180 characters or of one longer name, none closed before it had to be |
| NameList.SendNameList | source/src/game/BotNpc.cpp:873-904 | the loop sends a header, the bodies and an end |
| NameList.BuildNameList | source/src/game/BotNpc.cpp:863-870 | the loop joins the names |

## Left out

- EtfParser.Parser.InnerParse: compressed terms end in an error of their own instead of being inflated, and the text of an old-style float is read by a parameter, because zlib and sscanf are not part of this model; doubles are their 64-bit patterns.
- EtfParser.Parser.DecodeMap: a member's key is judged before its value is read; C++ leaves that order open, so with both of them wrong the error may be the other one.
- EtfLimits.BigIntExact: for the value 2^63 with a sign the program negates the smallest 64-bit number, which C++ leaves undefined; the model wraps around.
- EtfBuilder: the helpers the builder never calls (tuples, atoms in UTF-8, long longs) have no model.
- WebSocketClient.Client.HandleBuffer: the program never returns from a masked frame and has no defined behaviour on a length near 2^64, where it erases past the end; the model returns there with an outcome that says so, and `CutsDoNotMatter` says what still holds.
- WebSocketClient.Client.ParseHeader: on such a length it says so with `undefined` and changes nothing.
- WebSocketClient: the upgrade's HTTP headers, timers, close handshake and what the listener does with a payload; every delivered frame reaches it as its opcode's event.
- HttpsClient.Client.HandleBuffer: header parsing and the early return right after switching to chunks; the model starts behind them.
- RequestQueueProofs.EveryInterleaving: the global rate limit flag and changing the number of threads; a request is assumed to live until it is purged, which the program ensures by waiting a minute.
- RequestQueue: the threads' loops are steps of a state machine on values, since any of them may come between; only the hash, the erasing and the purge are loops here. What a request's run does is a reply chosen freely by the step, and threads wake up whenever they like.
- VoiceCourier.Drain: decoding, mixing and the callbacks are one event per packet or gap; decoder controls are not modelled.
- BarbershopRules.DetoursPayIff: colour percentages of more than half the money cap are not covered, as there the cap can hide what a detour saves.
- Barbershop: scales are real numbers instead of floats, and one object scale stands for owned height and auras; the two appearance fields are four bytes each, and the flash of the display id is left out.
- BarbershopMgr.Manager.HandleAddonMessage: the numbers in a message are unbounded instead of wrapping in atoi, and replies are values instead of text.
- BarbershopMgr.Manager.Update: whether the player stays seated is a parameter; the lock is not modelled, as every method runs to its end.
- BotNpcIdle.TimelinesAreSpaced: holds while the NPC keeps its row; what drops a row is said exactly by `RowIsKept`, and an NPC that comes back starts afresh.
- BotNpcIdle.OneSceneAtATime: does not cover the clearing of all rows, for which it is false, nor what a scene does or when it ends by itself.
- Cameras: objects and cameras are entries of two maps instead of linked objects, a list is a sequence and an iterator its element; grids and maps are numbers, and the packets about a new far sight are left out.
- Conditions: the tests that rows without children make of the world are a parameter, and the two of them that refer to other rows (47 and 50) are taken as such; scripts that overrule a result are left out.
- ConditionStore.LoadEnds: a ranking is enough for all worlds and arguments, but not needed, as a world in which no leaf is ever met may cut an endless chain short; the exact condition is per call, `ConditionEnd.DeepEnough`.
- AccountLimits.NoMoreInAnyHour: an entry follows its own check with no other check of the account between, as one character of an account enters at a time; game masters pass unchecked.
- Permissions: a word of 64 bits is the set of its bits; the cache of roles is part of the guild.
- SendPath: reading, polling, the handshake and when a connection is closed; TLS may split what it is given in any way.
- Utf8Text.Utf8Prefix: text is cut from its start only, and only well-formed text is counted; on other text the program reads past the end.
- NameList.BuildNameList: the set of names comes in order as a sequence; where a name is looked up is left out.
- Whisper scores, creature groups, custom merchants, aura removal and daily quests are mostly calls into a database, an AI or an inventory, and would add only easy members.
