# Verified model of microdoh3 and mdns-publisher

`microdoh3` is a DNS-over-HTTP/3 proxy: a supervisor forks workers, tells them through shared memory which upstream addresses to use, and each worker moves DNS queries between a UDP socket, a handshake queue and HTTP/3 streams. `mdns-publisher` answers for one hostname on the local link and defends it. This project models the logic both programs write themselves and proves what it keeps over every input and every run.

`dafny verify dfyconfig.toml` covers all files. Code that changes things step by step is a class or a method with loops, proved equal to a function of its inputs or of the old state; the theorems are about those functions.

| file | what it holds |
|---|---|
| `Bytes.dfy` | octets, results, powers of two |
| `Frames.dfy`, `Qpack.dfy`, `HuffmanTable.dfy`, `Huffman.dfy`, `H3.dfy` | HTTP/3 wire formats and the response-stream machine |
| `Base64Url.dfy`, `Dns.dfy`, `Request.dfy` | what is done to one DNS message, and the request it becomes |
| `Upstream.dfy`, `Publish.dfy`, `ResolvePage.dfy` | weighted assignment, publication, the supervisor's shared page |
| `Fleet.dfy`, `ScorePage.dfy`, `ScoreBoard.dfy` | the fleet of workers, one score slot, and all slots with the fleet writing to them |
| `RequestLedger.dfy`, `Worker.dfy`, `Migration.dfy` | where every query is, the worker loop, the migration policy |
| `Selection.dfy` | publication, shared page and migration joined |
| `Tiebreak.dfy`, `Zone.dfy` | mDNS probing and answers |

Properties that the code does not have without a condition. Each has a failing input, and an if-and-only-if that says exactly when it holds:

- Closing a live connection in a migration leaves its requests pending while stream ids start again, so a later request can push one out. Whatever the worker then does on the new connection no query is dropped, if and only if nothing was pending (`RequestLedger.RenewalHarmlessIff`); `Worker.MigrationDropsRequest` makes it happen with two calls of the worker itself, `Worker.FirstRequestDropped` from a new worker on. While it does not happen every query is in exactly one place (`RequestLedger.OnePlace`, `Worker.Loop.Iterate`).
- Shutdown leaves every query answered if and only if the handshake queue was empty and nothing had been dropped (`Worker.Loop.Shutdown`); a query that arrives during the handshake is left unanswered (`Worker.ShutdownLeavesQuery`).
- A server stream type that takes more than one octet is decoded again from the new chunk when it is split; GOAWAY recognition is independent of chunking if and only if the first octet is below 0x40 (`H3.ControlChunkingIff`).
- A worker killed between its two sequence stores leaves the parity odd for its successor. Whatever orderly follows, every read stays one complete write, if and only if the worker did not die there (`ScorePage.DeathHarmlessIff`).
- Without such deaths every read of every score slot is one complete write, over every interleaving of the whole fleet, if and only if there are at most 32 workers (`ScoreBoard.FleetReadsAreWritesIff`); that is also exactly when no two live workers share a slot (`Fleet.SlotsApartIff`).
- Every worker index stays in exactly one place over every run if and only if no CPU is listed twice (`Fleet.BalancedIffDistinct`).
- A score sample's address survives the page if and only if it is not 0.0.0.0 (`ScorePage.SampleRoundTrip`).
- A question whose last octets look like an OPT header is mistaken for one by padding, and its last two octets, the class, are overwritten (`Dns.MistakenQuestion`, `Dns.ClassOverwritten`); the question survives if and only if they do not (`Dns.QuestionSurvivesIff`).
- A query whose OPT record holds an option, such as a cookie, gets a second OPT record, against section 6.1.1 of RFC 6891 (`Dns.CookieGetsSecondOpt`). A query with at most an OPT record after its question has exactly one after padding if and only if it had none and does not end like one, or had one without data (`Dns.OneOptIff`).
- Varints round-trip if and only if they are below 2^62, prefix integers if and only if they are below 2^63 + 2^p - 1 (`Frames.VarintRoundTrip`, `Qpack.PrefixIntRoundTrip`).
- An interface may hold one address under two prefix lengths; an address change can then go unnoticed (`Zone.RepeatedHidesChange`). Every change away from a list is noticed if and only if the list names no address twice (`Zone.ChangeNoticedIff`).
- A POST request carries no content type, which section 4.1 of RFC 8484 asks for (`Request.RequestValues`).
- The tiebreak lets the lexicographically earlier record win, while section 8.2 of RFC 6762 says the later one does. The code is followed; what is proved is that its order decides every contest the same way on all hosts.

## Model

| member | source | states |
|---|---|---|
| `Frames.VarintRoundTrip` | pkgs/microdoh3/src/h3.rs:19-43 | decoding an encoded integer with anything after it gives the integer and its length if and only if it is below 2^62; above, the value modulo 2^62 |
| `Frames.VarintPrefixIncomplete` | pkgs/microdoh3/src/h3.rs:32-43 | every proper prefix of an encoded integer is reported incomplete |
| `Frames.VarintDecode` | pkgs/microdoh3/src/h3.rs:32-43 | the octet loop computes the specified decoding |
| `Frames.VarintEncode` | pkgs/microdoh3/src/h3.rs:19-30 | appends exactly the encoding |
| `Frames.FrameParser.Feed` | pkgs/microdoh3/src/h3.rs:126-129 | the buffer grows by the data |
| `Frames.FrameParser.NextFrame` | pkgs/microdoh3/src/h3.rs:131-144 | removes exactly the first complete frame, or nothing |
| `Frames.FramesExtend` | pkgs/microdoh3/src/h3.rs:126-144 | parsing a concatenation is parsing the first part, then its leftover with the second |
| `Frames.InterleavingRefinesOneShot` | pkgs/microdoh3/src/h3.rs:126-144 | any interleaving of feeding and taking yields, taken frames plus those still buffered, the frames of all bytes fed, and consumed bytes plus buffer are all bytes fed |
| `Frames.FrameRoundTrip` | pkgs/microdoh3/src/h3.rs:82-144 | an encoded frame is parsed back with the rest untouched |
| `HuffmanTable.TableCanonical` | pkgs/microdoh3/src/huffman_table.rs:3-261 | each of the 257 codes lies in its length's canonical interval |
| `HuffmanTable.CodeAssigned` | pkgs/microdoh3/src/huffman_table.rs:3-261 | no gap: every code in a length's interval belongs to some symbol |
| `HuffmanTable.CodesDistinct` | pkgs/microdoh3/src/huffman_table.rs:3-261 | no two symbols share a code |
| `Huffman.PrefixFree` | pkgs/microdoh3/src/huffman_table.rs:3-261 | no code word is a prefix of another |
| `Huffman.StuckIsShort` | pkgs/microdoh3/src/qpack.rs:261-309 | a bit string with no code word at its front is shorter than 30 bits, so the 56-bit guard never fires |
| `Huffman.SplitSound` | pkgs/microdoh3/src/qpack.rs:261-309 | the symbols taken and the bits left over re-encode to the input |
| `Huffman.SplitUnique` | pkgs/microdoh3/src/qpack.rs:261-309 | a text followed by undecodable bits splits in one way only |
| `Huffman.FindCode` | pkgs/microdoh3/src/qpack.rs:261-309 | the table search finds the symbol with a code exactly when there is one |
| `Huffman.MatchFront` | pkgs/microdoh3/src/qpack.rs:261-309 | trying lengths finds the one code word at the front of the accumulator, or shows there is none |
| `Huffman.HuffmanDecode` | pkgs/microdoh3/src/qpack.rs:261-309 | the accumulator loop gives the specified outcome on every input, with an error for the end-of-string symbol and for bad padding |
| `Huffman.DecodeIffEncoding` | pkgs/microdoh3/src/qpack.rs:261-309 | decoding succeeds with `s` if and only if the data is the codes of `s` padded with fewer than eight one-bits (section 5.2 of RFC 7541) |
| `Huffman.EncodingInjective` | pkgs/microdoh3/src/qpack.rs:261-309 | different texts have different padded encodings |
| `Qpack.WritePrefixInt` | pkgs/microdoh3/src/qpack.rs:41-54 | the loop appends the specified prefix integer |
| `Qpack.ReadPrefixInt` | pkgs/microdoh3/src/qpack.rs:56-84 | the loop reads the specified integer, stays in the buffer and reports truncation and overflow |
| `Qpack.GroupsRoundTrip` | pkgs/microdoh3/src/qpack.rs:41-84 | continuation octets are read back when they fit, refused when they do not |
| `Qpack.PrefixIntRoundTrip` | pkgs/microdoh3/src/qpack.rs:41-84 | for every prefix width and flag bits, anywhere in a buffer, reading inverts writing if and only if the value is below 2^63 + 2^p - 1, and is an error otherwise |
| `Qpack.EncodeFieldSection` | pkgs/microdoh3/src/qpack.rs:86-98 | appends the two-octet prefix and one literal line per field |
| `Qpack.DecodeValue` | pkgs/microdoh3/src/qpack.rs:112-136 | a value is its octets, or their Huffman decoding when so marked |
| `Qpack.TakeString` | pkgs/microdoh3/src/qpack.rs:167-254 | a length-prefixed string is read within the buffer, with its Huffman mark |
| `Qpack.Decoder.Next` | pkgs/microdoh3/src/qpack.rs:151-254 | on any bytes each step advances and stays in the buffer, ends exactly at the end, and returns the line specified for that position |
| `Qpack.LinesRoundTrip` | pkgs/microdoh3/src/qpack.rs:86-98 | encoded field lines at any offset are read back in order |
| `Qpack.FieldSectionRoundTrip` | pkgs/microdoh3/src/qpack.rs:86-254 | decoding an encoded field section returns exactly the input list |
| `Qpack.WireLinesReadBack` | pkgs/microdoh3/src/qpack.rs:151-254 | any mixture of indexed lines, values under a table name (plain or Huffman) and literal lines is read back in order |
| `Qpack.EntryReadBack` | pkgs/microdoh3/src/qpack.rs:167-254 | an indexed line reads back its table entry, or is refused beyond the table |
| `Qpack.DynamicRefused` | pkgs/microdoh3/src/qpack.rs:167-254 | every form that needs the dynamic table is refused |
| `Qpack.SectionStartIff` | pkgs/microdoh3/src/qpack.rs:153-165 | a section with a nonzero insert count is refused, any other starts after its two numbers |
| `Qpack.HuffmanValueIff` | pkgs/microdoh3/src/qpack.rs:112-136 | a Huffman value is read as `s` if and only if it is the padded code of `s`; a plain or table value is itself |
| `H3.ParseStatus` | pkgs/microdoh3/src/h3.rs:392-403 | the first `:status` line decides; malformed sections are errors |
| `H3.ParseU16Is` | pkgs/microdoh3/src/h3.rs:392-403 | a status text is read as the number its digits write, after an optional plus sign; anything else and anything from 65536 on is 0 |
| `H3.DecimalRoundTrip` | pkgs/microdoh3/src/h3.rs:392-403 | every 16-bit number in decimal is read back |
| `H3.StatusReadBack` | pkgs/microdoh3/src/h3.rs:392-403 | however a section is written, the first `:status` line decides, and one that writes n in decimal gives n |
| `H3.UsualStatus` | pkgs/microdoh3/src/h3.rs:392-403 | the one-line section with table entry 25 gives 200 |
| `H3.Layer.RegisterRequest` | pkgs/microdoh3/src/h3.rs:201-212 | the stream map gains a fresh response state |
| `H3.Layer.FeedData` | pkgs/microdoh3/src/h3.rs:222-338 | the map, the emitted events and the GOAWAY flag after one chunk |
| `H3.Layer.ProcessServerUni` | pkgs/microdoh3/src/h3.rs:340-355 | server stream state and GOAWAY count after draining its buffer |
| `H3.Layer.FinishStream` | pkgs/microdoh3/src/h3.rs:359-380 | one terminal event for a registered stream, none otherwise, and the stream forgotten |
| `H3.Layer.ResetStream` | pkgs/microdoh3/src/h3.rs:382-388 | a failure for a live stream, nothing for one already failed, and the stream forgotten |
| `H3.ChunksJoin` | pkgs/microdoh3/src/h3.rs:292-338 | feeding chunks leaves the state of feeding their concatenation |
| `H3.ResponseOutcome` | pkgs/microdoh3/src/h3.rs:292-380 | after a registration, for any chunking and whatever calls are made on other streams in between, finishing gives exactly one event: the concatenated DATA payloads if and only if some DATA frame arrived, every HEADERS frame decoded and the last status is 200, a failure otherwise |
| `H3.OthersDoNotMatter` | pkgs/microdoh3/src/h3.rs:201-388 | the state of a stream that is only fed is that of feeding its own data alone |
| `H3.RegistrationsBalance` | pkgs/microdoh3/src/h3.rs:201-388 | over every run of calls: registrations = terminal events + replaced + silently reset + still live |
| `H3.AtMostOneTerminal` | pkgs/microdoh3/src/h3.rs:201-388 | over every run no stream has more terminal events than registrations |
| `H3.ControlChunks` | pkgs/microdoh3/src/h3.rs:232-290 | a control stream emits one GOAWAY per complete GOAWAY frame under any chunking |
| `H3.OneOctetType` | pkgs/microdoh3/src/h3.rs:232-290 | with a one-octet stream type the GOAWAY count is that of the frames after it for the control type and zero for others, under any chunking |
| `H3.SplinterDiffers` | pkgs/microdoh3/src/h3.rs:232-259 | for every first octet from 0x40 on, a concrete stream whose GOAWAY count changes when it is cut after that octet |
| `H3.ControlChunkingIff` | pkgs/microdoh3/src/h3.rs:232-290 | the GOAWAY count is independent of chunking if and only if the first octet is below 0x40 |
| `Base64Url.EncodeInto` | pkgs/microdoh3/src/base64url.rs:18-46 | writes exactly the encoding at the front of the buffer, returns its length, leaves the rest |
| `Base64Url.RoundTrip` | pkgs/microdoh3/src/base64url.rs:4-46 | a reference decoder of section 5 of RFC 4648 without padding returns the input |
| `Base64Url.NoPadSign` | pkgs/microdoh3/src/base64url.rs:4-46 | the encoding never holds an equals sign |
| `Dns.ValidateQuery` | pkgs/microdoh3/src/dns.rs:40-56 | accepted if and only if long enough, not a response, one question; and which refusal each other message gets |
| `Dns.QuestionEnd` | pkgs/microdoh3/src/dns.rs:61-77 | the label loop terminates on all bytes with the specified offset or error |
| `Dns.QuestionEndIff` | pkgs/microdoh3/src/dns.rs:61-77 | the result is `end` if and only if an encoded label list of legal labels stands after the header and ends four octets before `end` |
| `Dns.BuildServfail` | pkgs/microdoh3/src/dns.rs:86-105 | fails exactly below header length and then changes nothing |
| `Dns.ServfailAnswers` | pkgs/microdoh3/src/dns.rs:86-105 | for every accepted query: same ID, question count, opcode, RD and AD/CD bits, other counts zero, QR and RA set, SERVFAIL code; the question octet for octet if it is complete, otherwise the header alone; a message that validation always rejects |
| `Dns.PadQuery` | pkgs/microdoh3/src/dns.rs:113-160 | pads exactly when it says so, otherwise returns the input |
| `Dns.PaddingAddsOpt` | pkgs/microdoh3/src/dns.rs:113-160 | without an OPT tail: length is the block size, the message is unchanged but for ARCOUNT raised by one, and one OPT of payload size 4096 and zero flags with matching lengths follows, if and only if the lengths fit 16 bits |
| `Dns.PaddingExtendsOpt` | pkgs/microdoh3/src/dns.rs:113-160 | with an empty OPT tail: the same OPT gains the padding option, ARCOUNT unchanged, and the end of a question before it is found where it was |
| `Dns.PaddingOnce` | pkgs/microdoh3/src/dns.rs:113-160 | a padded message is of block length and a second call does nothing |
| `Dns.OneOptIff` | pkgs/microdoh3/src/dns.rs:113-160 | for a query with at most an OPT record after its question: exactly one OPT after padding if and only if there was none and the tail does not look like one, or the OPT had no data; otherwise, not recognised, it is followed by a second one; the question ends where it did |
| `Dns.CookieGetsSecondOpt` | pkgs/microdoh3/src/dns.rs:113-160 | an accepted query with a cookie ends up with two OPT records |
| `Dns.QuestionSurvivesIff` | pkgs/microdoh3/src/dns.rs:61-160 | for a header-plus-question query the question octets survive padding if and only if they do not look like an OPT tail; its end is found in either case |
| `Dns.ClassOverwritten` | pkgs/microdoh3/src/dns.rs:113-160 | every query mistaken for one with OPT has its last two octets changed and no others before them |
| `Dns.MistakenQuestion` | pkgs/microdoh3/src/dns.rs:113-160 | such an accepted query exists |
| `Request.EncodeRequest` | pkgs/microdoh3/src/h3.rs:82-113 | appends one HEADERS frame with the encoded fields and at most one DATA frame |
| `Request.BuildRequest` | pkgs/microdoh3/src/worker.rs:581-630 | the bytes put on the stream for a query |
| `Request.RequestRoundTrip` | pkgs/microdoh3/src/worker.rs:581-630 | parsing them gives one HEADERS frame whose fields decode to exactly the intended list, then nothing (GET) or one DATA frame with the query (POST); for GET what follows the last `=` of the decoded `:path` is, in base64url, the outgoing query with its ID zeroed (section 4.1 of RFC 8484) |
| `Request.RequestValues` | pkgs/microdoh3/src/worker.rs:581-630 | the decoded method, scheme, authority, path, accept and authorization of a GET and of a POST, and that there is never a content type |
| `Upstream.AddrRoundTrip` | pkgs/microdoh3/src/shared.rs:63-90 | an address survives its shared-memory form |
| `Upstream.ComputeSlot` | pkgs/microdoh3/src/shared.rs:173-194 | the accumulator loop gives the specified slot, none exactly for an empty set |
| `Upstream.WeightOfEntry` | pkgs/microdoh3/src/shared.rs:196-203 | the weight of an address is that of its first entry |
| `Upstream.WeightOfMissing` | pkgs/microdoh3/src/shared.rs:196-203 | and 0 when it has none |
| `Upstream.NoWeightsRoundRobin` | pkgs/microdoh3/src/shared.rs:173-183 | without any weight the workers go round the addresses |
| `Upstream.SlotIffBetweenCuts` | pkgs/microdoh3/src/shared.rs:173-194 | index `i` goes to address `j` exactly between two rounded cuts; the fallback is unreachable |
| `Upstream.Quota` | pkgs/microdoh3/src/shared.rs:173-194 | the number of workers on an address differs from W*w/T by less than one: it is the floor or the ceiling |
| `Upstream.QuotaExact` | pkgs/microdoh3/src/shared.rs:173-194 | where T divides W*w the number is exactly the quotient |
| `Upstream.CountsAddUp` | pkgs/microdoh3/src/shared.rs:173-194 | the numbers add up to W |
| `Upstream.SlotMonotone` | pkgs/microdoh3/src/shared.rs:173-194 | the slot never decreases with the index |
| `Upstream.OwedIsServed` | pkgs/microdoh3/src/shared.rs:173-194 | an address owed a worker has one, a zero-weight address has none |
| `Upstream.EqualWeightsEvenly` | pkgs/microdoh3/src/shared.rs:173-194 | equal weights differ by at most one worker |
| `Upstream.NoOverflow` | pkgs/microdoh3/src/shared.rs:173-194 | with 16 addresses and 32 workers the products fit 64 bits |
| `Publish.ComputeWeights` | pkgs/microdoh3/src/main.rs:711-751 | the loops and the sort give the specified weighted list |
| `Publish.WeightsMean` | pkgs/microdoh3/src/main.rs:711-751 | every candidate once, heaviest first, ties in candidate order; a measured one weighs its greatest reported score but at least half a worker's share of the top score and 1, an unmeasured one that minimum, the first unmeasured one a whole share more, capped at 2^32 - 1 |
| `Publish.MeasuredScoresDecide` | pkgs/microdoh3/src/main.rs:711-751 | with everything measured a higher score never gets the smaller weight, and the heaviest weight is the highest score (1 if that is 0) |
| `Publish.BestIsMaximum` | pkgs/microdoh3/src/main.rs:711-751 | a candidate's score is the greatest reported for it, zero when none is |
| `Publish.RankIsRanked` | pkgs/microdoh3/src/main.rs:711-751 | the order is by weight, ties in candidate order, every candidate once |
| `Publish.FamiliesPartition` | pkgs/microdoh3/src/main.rs:682-706 | splitting by family loses and repeats no address |
| `Publish.RefreshKeepsShape` | pkgs/microdoh3/src/main.rs:682-706 | an empty answer changes nothing; others leave the first 16 of the listed addresses, a permutation when at most 16 resolve |
| `Publish.FamilyInOrder` | pkgs/microdoh3/src/main.rs:682-706 | each family is listed completely and in answer order |
| `Publish.FourBeforeSix` | pkgs/microdoh3/src/main.rs:682-706 | with IPv4 preferred no IPv6 address comes before an IPv4 one; otherwise the answer order stays |
| `Publish.Supervisor.UpdateCandidates` | pkgs/microdoh3/src/main.rs:538-545 | one refresh as a step of the publication history |
| `Publish.Supervisor.ScoreRound` | pkgs/microdoh3/src/main.rs:583-602 | one scoring round as a step of the publication history |
| `Publish.EveryPublicationSound` | pkgs/microdoh3/src/main.rs:385-396 | over all refresh and scoring rounds each published set is nonempty, at most 16, a permutation of the candidates, weights at least 1, nonincreasing, ties in candidate order |
| `Publish.LastIsLatest` | pkgs/microdoh3/src/main.rs:583-602 | after a scoring round the last set published is that round's weights; a refresh publishes nothing |
| `Publish.FirstIsEqual` | pkgs/microdoh3/src/main.rs:385-396 | the first set gives every candidate the weight 1 |
| `Publish.FleetOnPublication` | pkgs/microdoh3/src/worker.rs:167-183 | on such a set a worker's first index is in bounds, lower-numbered workers sit on addresses at least as heavy, each address owed a worker has one |
| `Publish.UnmeasuredSpreadsEvenly` | pkgs/microdoh3/src/main.rs:711-751 | with nothing measured all weights are 1 and worker counts differ by at most one |
| `ResolvePage.ProgramAnnounces` | pkgs/microdoh3/src/shared.rs:235-265 | the field stores of a publish leave exactly the announced set and expiry, whatever the page held |
| `ResolvePage.ResolveWriter.Publish` | pkgs/microdoh3/src/shared.rs:235-265 | one publish run alone: all field stores and two sequence steps |
| `ResolvePage.ResolveReader.ReadIfChanged` | pkgs/microdoh3/src/shared.rs:309-337 | one read run alone: the page's set if even and new, else nothing |
| `ResolvePage.LoadKeeps` | pkgs/microdoh3/src/shared.rs:309-337 | a single load keeps the reader's copy in agreement with an unchanged page; a result is the whole page |
| `ResolvePage.ActKeeps` | pkgs/microdoh3/src/shared.rs:235-337 | every single store or load keeps the seqlock invariant |
| `ResolvePage.RunKeeps` | pkgs/microdoh3/src/shared.rs:235-337 | so does every interleaving of stores and loads |
| `ResolvePage.NeverMixed` | pkgs/microdoh3/src/shared.rs:235-337 | in every interleaving of one writer's stores with any number of readers' loads, each result equals one committed publish and a reader's results strictly increase in revision |
| `ResolvePage.QuietRead` | pkgs/microdoh3/src/shared.rs:309-337 | with the writer quiet, a reader's next read takes exactly 2*count+6 loads and returns the latest publish, or nothing if it already has it, whatever other readers do |
| `ScorePage.SampleRoundTrip` | pkgs/microdoh3/src/shared.rs:424-493 | a sample is read as written if and only if its address is not 0.0.0.0 |
| `ScorePage.ActKeeps` | pkgs/microdoh3/src/shared.rs:424-493 | every store and load, and every death outside a write, keeps the slot invariant while at most one process writes |
| `ScorePage.ReadsAreWrites` | pkgs/microdoh3/src/shared.rs:411-493 | over every run in which no process dies between its sequence stores or starts a write beside another, every read equals one complete write |
| `ScorePage.DeathHarmlessIff` | pkgs/microdoh3/src/shared.rs:424-440 | from every state of the invariant, a death leaves all later orderly reads genuine if and only if it did not fall between the two sequence stores |
| `ScorePage.OddStartTears` | pkgs/microdoh3/src/shared.rs:424-493 | a successor that starts from an odd number can be read between its stores |
| `ScoreBoard.ActKeeps` | pkgs/microdoh3/src/shared.rs:411-493 | with every live worker writing to the slot of its index, each store, load, exit and restart keeps all slots in order |
| `ScoreBoard.LargeFleetTears` | pkgs/microdoh3/src/shared.rs:411-440 | with more than 32 workers two of them share the last slot and a read returns what nobody finished writing |
| `ScoreBoard.FleetReadsAreWritesIff` | pkgs/microdoh3/src/shared.rs:411-493 | over every prefork and every interleaving without a death inside a write, each read of each slot is one complete write, if and only if there are at most 32 workers |
| `Fleet.BackoffDelay` | pkgs/microdoh3/src/main.rs:640-648 | zero exactly for no failures, then doubling from 2 s to 32 s and staying there |
| `Fleet.ExitSchedules` | pkgs/microdoh3/src/main.rs:650-672 | an exit schedules a restart on the same CPU and index, at once after ten seconds of life, otherwise after a delay that doubles with every quick death up to 32 s; a shutdown schedules none |
| `Fleet.ExitKeeps` | pkgs/microdoh3/src/main.rs:650-672 | a worker's exit keeps every index in exactly one place |
| `Fleet.RestartKeeps` | pkgs/microdoh3/src/main.rs:423-503 | so does a restart, whether the fork works or not |
| `Fleet.PreforkBalances` | pkgs/microdoh3/src/main.rs:754-800 | so does the initial fleet |
| `Fleet.LedgerBalances` | pkgs/microdoh3/src/main.rs:423-503 | over every run on distinct CPUs each index is in exactly one of running, waiting, lost, and none is lost while forks succeed and nothing shuts down |
| `Fleet.SlotsApartIff` | pkgs/microdoh3/src/main.rs:754-800 | over every prefork and run no two live workers claim one score slot, if and only if there are at most 32 |
| `Fleet.TraceSingle` | pkgs/microdoh3/src/main.rs:423-503 | over every run, whatever the CPUs, no index is running or waiting twice |
| `Fleet.BalancedIffDistinct` | pkgs/microdoh3/src/main.rs:423-503 | over every prefork and run each index is in exactly one place, if and only if no CPU is listed twice |
| `Fleet.RepeatedCpuUnbalances` | pkgs/microdoh3/src/main.rs:650-672 | from the prefork on, the exits of two workers on one CPU number leave the first without a restart |
| `Fleet.Supervisor.SpawnWorker` | pkgs/microdoh3/src/main.rs:754-800 | the ledger after one fork |
| `Fleet.Supervisor.ScheduleChildExit` | pkgs/microdoh3/src/main.rs:650-672 | the ledger after one exit |
| `Fleet.Supervisor.RestartDue` | pkgs/microdoh3/src/main.rs:423-503 | exactly the due restarts are taken: each becomes the process of its fork, with its index and failure count, or is lost with a failed fork; running workers and later restarts stay; the balance is kept |
| `RequestLedger.StepKeeps` | pkgs/microdoh3/src/worker.rs:477-658 | each primitive move keeps the ledger: every query in one place, answered at most once, to its own peer with its own ID |
| `RequestLedger.EveryRun` | pkgs/microdoh3/src/worker.rs:477-937 | so does every run of moves, and without dirty renewals no pending entry is stale |
| `RequestLedger.OnePlace` | pkgs/microdoh3/src/worker.rs:477-937 | provided pending is empty when a connection is replaced, each query is in exactly one of queue, pending, answered |
| `RequestLedger.RenewalHarmlessIff` | pkgs/microdoh3/src/worker.rs:911-923 | after a connection is replaced no continuation the worker permits drops a query, if and only if nothing was pending |
| `RequestLedger.DirtyRenewalDrops` | pkgs/microdoh3/src/worker.rs:911-923 | a query pushed out on the new connection is nowhere and never answered, whatever follows |
| `Worker.TimerCoversDeadlines` | pkgs/microdoh3/src/worker.rs:336-348 | the armed timer is never later than any tracked deadline, the reconnect or the QUIC timeout, although only the queue's front is looked at, and it is one of them |
| `Worker.BackoffSchedule` | pkgs/microdoh3/src/worker.rs:718-722 | the reconnect delay after n losses in a row: 100 (2^n - 1) ms, at most 5 s |
| `Worker.WithIdAnswers` | pkgs/microdoh3/src/worker.rs:769-773 | an answer is the upstream's message octet for octet with the first two octets replaced by the client's, untouched when either is shorter than two |
| `Worker.Loop.SendServfail` | pkgs/microdoh3/src/worker.rs:1011-1017 | the query in hand is answered by its own SERVFAIL |
| `Worker.Loop.DispatchQuery` | pkgs/microdoh3/src/worker.rs:558-658 | the query becomes pending on its new stream with the full timeout, or gets its SERVFAIL; nothing else changes |
| `Worker.Loop.HandleQuery` | pkgs/microdoh3/src/worker.rs:498-523 | which of failing, queueing (at most 64) and sending happens, and its exact effect, including a request pushed out |
| `Worker.Loop.DrainDns` | pkgs/microdoh3/src/worker.rs:477-527 | every datagram in turn has the effect of handling it alone; exactly the acceptable ones are received, in order; while draining each fails at once; before the handshake nothing is sent, after it nothing queued |
| `Worker.Loop.FlushQueue` | pkgs/microdoh3/src/worker.rs:531-554 | each waiting query in turn is pending on its stream, or failed if late or its stream does not work |
| `Worker.Loop.FailAllPending` | pkgs/microdoh3/src/worker.rs:1019-1024 | every pending request gets its own SERVFAIL, none stays |
| `Worker.Loop.OnConnected` | pkgs/microdoh3/src/worker.rs:680-700 | backoff and reconnect are cleared; the first time the queue is flushed; reported after a loss, it leaves the ready flag wrong |
| `Worker.Loop.OnLost` | pkgs/microdoh3/src/worker.rs:701-722 | every pending request gets its SERVFAIL and nothing else is sent, the connection is gone, a retry is due after the old backoff, which grows |
| `Worker.Loop.ApplyEvent` | pkgs/microdoh3/src/worker.rs:760-799 | an event answers the query that went out on its stream of this connection, and only it: with the whole upstream message under the query's ID, or with its SERVFAIL; late and repeated events change nothing |
| `Worker.Loop.ProcessQuicEvents` | pkgs/microdoh3/src/worker.rs:662-800 | any batch keeps the invariants; each reply it sends is the SERVFAIL of its own query, or the whole message of a response of the batch under the ID of the query sent on that stream of this connection; a loss leaves nothing pending |
| `Worker.Loop.ExpirePending` | pkgs/microdoh3/src/worker.rs:821-832 | exactly the overdue requests are failed |
| `Worker.Loop.ExpireQueue` | pkgs/microdoh3/src/worker.rs:850-859 | front-only expiry removes exactly the overdue queries, because the queue is sorted |
| `Worker.Loop.Reconnect` | pkgs/microdoh3/src/worker.rs:911-937 | the outcome of a reconnect, and when it leaves requests behind |
| `Worker.Loop.Housekeeping` | pkgs/microdoh3/src/worker.rs:805-938 | afterwards exactly the tracked queries not yet due remain, the others got SERVFAIL, every query two timeouts old is answered unless it was dropped; a reconnect is made exactly when one is due, a GOAWAY has drained or the policy migrates, and what it leaves; only a migration leaves requests behind |
| `Worker.Loop.Drained` | pkgs/microdoh3/src/worker.rs:421-431 | a drained connection fails its requests; the reconnect already scheduled stays, else one is due after the backoff |
| `Worker.Loop.Shutdown` | pkgs/microdoh3/src/worker.rs:437-441 | pending requests are answered, the queue is not; every query ever received is answered if and only if the queue was empty and nothing had been dropped |
| `Worker.Loop.Iterate` | pkgs/microdoh3/src/worker.rs:336-434 | over every run of loop inputs the invariants hold; if every connection was replaced with nothing pending, each query is in exactly one of queue, pending, answered; after a timer pass every query that arrived two timeouts ago is answered unless it was dropped |
| `Worker.OldAreSettled` | pkgs/microdoh3/src/worker.rs:821-859 | once nothing tracked is overdue, every query two timeouts old has its answer or was dropped |
| `Worker.MigrationDropsRequest` | pkgs/microdoh3/src/worker.rs:886-923 | a migration and one more query make the worker drop a pending request unanswered |
| `Worker.FirstRequestDropped` | pkgs/microdoh3/src/worker.rs:886-923 | so a new worker can drop its first query |
| `Worker.ShutdownLeavesQuery` | pkgs/microdoh3/src/worker.rs:437-441 | a query that arrives during the handshake is received and never answered when the worker shuts down |
| `Migration.BestAlternative` | pkgs/microdoh3/src/worker.rs:953-967 | the last of the heaviest entries of positive weight other than the current address; none exactly when there is none |
| `Migration.FailingWorkerMovesIff` | pkgs/microdoh3/src/worker.rs:969-990 | a failing worker has a target, 10 s after its last move, if and only if some address weighs more than its own, and the target is a heaviest address |
| `Migration.OrdinaryMoveIff` | pkgs/microdoh3/src/worker.rs:991-1009 | another worker moves to the address whose share of the fleet holds its index if and only if 180 s have passed, its window is open, and that address is not its own and at least 1.5 times as heavy |
| `Migration.MovesWithinOneRound` | pkgs/microdoh3/src/worker.rs:946-1009 | such a worker moves in its next window, at most one round of 5 s windows after the 180 s |
| `Migration.VanishedMovesAtOnce` | pkgs/microdoh3/src/worker.rs:834-848 | a worker whose address vanished from an adopted set moves in its window at once |
| `Migration.UphillOnly` | pkgs/microdoh3/src/worker.rs:969-1009 | with positive weights a migration strictly increases the weight of the worker's address |
| `Migration.NoPingPong` | pkgs/microdoh3/src/worker.rs:886-1009 | while one set is kept no address is returned to and there are at most as many migrations as addresses |
| `Migration.MigrationsSpaced` | pkgs/microdoh3/src/worker.rs:834-909 | over every run migrations are at least 10 s apart, 180 s when not driven by failures, unless the address vanished from a newly adopted set |
| `Migration.OneMoverPerWindow` | pkgs/microdoh3/src/worker.rs:946-1009 | two workers of a fleet never make an ordinary migration in one 5 s window |
| `Migration.Policy.constructor` | pkgs/microdoh3/src/worker.rs:167-183 | a worker starts on the address its index is assigned |
| `Migration.Policy.AdoptSet` | pkgs/microdoh3/src/worker.rs:834-848 | a nonempty set is adopted with the slot it assigns, and with the waiver when the address is gone |
| `Migration.Policy.Migrate` | pkgs/microdoh3/src/worker.rs:886-909 | moves exactly when no reconnect is pending and there is a target, to it and its first position in the set; the failure count and the clock of the last move are reset |
| `Selection.CommitsAreBegun` | pkgs/microdoh3/src/shared.rs:235-265 | commits are the publishes begun, in order |
| `Selection.ReadsArePublications` | pkgs/microdoh3/src/shared.rs:309-337 | over all rounds and interleavings, what a worker reads is exactly the supervisor's publication of that revision, sound, nonempty and of positive weights |
| `Selection.WorkerNeverPingPongs` | pkgs/microdoh3/src/worker.rs:886-1009 | so a worker that keeps a set it read never returns to an address and moves at most 16 times |
| `Tiebreak.LessTotal` | pkgs/mdns-publisher/main.go:273-285 | the record order is a strict total order on class, type and rdata |
| `Tiebreak.LessTransitive` | pkgs/mdns-publisher/main.go:273-285 | and transitive |
| `Tiebreak.RecordOrderIff` | pkgs/mdns-publisher/main.go:273-285 | records compare by class without the flush bit, then type, then rdata |
| `Tiebreak.OctetsLessIff` | pkgs/mdns-publisher/main.go:273-285 | rdata compares at the first difference, a proper prefix is smaller |
| `Tiebreak.SameNameIff` | pkgs/mdns-publisher/main.go:777-793 | names are the same if and only if they agree letter by letter up to ASCII case |
| `Tiebreak.SortedUnique` | pkgs/mdns-publisher/main.go:806-812 | any two sorts of the same records give the same keys |
| `Tiebreak.VerdictTotal` | pkgs/mdns-publisher/main.go:806-824 | two hosts never both win, and neither wins exactly on equal sorted lists |
| `Tiebreak.VerdictTransitive` | pkgs/mdns-publisher/main.go:806-824 | winning is transitive |
| `Tiebreak.VerdictIff` | pkgs/mdns-publisher/main.go:806-824 | the first record that differs decides and the smaller one wins; without a difference the longer list wins |
| `Tiebreak.NamedInOrder` | pkgs/mdns-publisher/main.go:788-793 | exactly the records of the probed name are compared |
| `Tiebreak.VerdictIgnoresOrder` | pkgs/mdns-publisher/main.go:806-824 | the verdict does not depend on the order of records in either message |
| `Tiebreak.Host.CompareSorted` | pkgs/mdns-publisher/main.go:814-823 | the loop computes the verdict |
| `Tiebreak.Host.HandleProbeTiebreak` | pkgs/mdns-publisher/main.go:777-800 | a conflict is recorded exactly when the message asks for the name and its records win |
| `Tiebreak.ProbeConflictIff` | pkgs/mdns-publisher/main.go:944-971 | a probe as sent by such a host conflicts exactly when its records win |
| `Tiebreak.ExactlyOneKeeps` | pkgs/mdns-publisher/main.go:777-824 | among any number of mutually probing hosts with pairwise different nonempty sets exactly one records no conflict |
| `Zone.HostnameZone.Records` | pkgs/mdns-publisher/main.go:101-144 | the answers by value, every one of them a new object |
| `Zone.FilterKnownAnswers` | pkgs/mdns-publisher/main.go:203-214 | keeps, in order, the records the querier does not know |
| `Zone.IsKnownAnswer` | pkgs/mdns-publisher/main.go:216-238 | some listed record has the same name, type, class and rdata and at least half the TTL |
| `Zone.SuppressionIsTrue` | pkgs/mdns-publisher/main.go:120-127 | stripping the flush bit changes no suppression verdict, and the TTL compared is the true one |
| `Zone.ReplyExact` | pkgs/mdns-publisher/main.go:827-855 | per question, in zone order, precisely the matching records not known with half their true TTL; failing any match, the negative record under the same condition (sections 6.1 and 7.1 of RFC 6762) |
| `Zone.WatchedReply` | pkgs/mdns-publisher/main.go:101-144 | after any run of address changes: nothing for another name or class; otherwise, when a record has the asked type, exactly the records of that type the querier does not hold with half their TTL, in zone order, with the host's name, type, address, class and TTL |
| `Zone.RepliesMatch` | pkgs/mdns-publisher/main.go:101-144 | every record of a reply has the question's name, and the asked type unless it is the denial |
| `Zone.DenialKnownIff` | pkgs/mdns-publisher/main.go:216-301 | the denial is suppressed if and only if the querier lists one for this name with half the TTL and the same types |
| `Zone.ReplyInSection` | pkgs/mdns-publisher/main.go:831-855 | each question's reply stands whole in the section it goes to, after those of earlier questions |
| `Zone.SectionsShareReplies` | pkgs/mdns-publisher/main.go:831-855 | the two sections together hold exactly the records of all replies, each as often |
| `Zone.ReplyIsSent` | pkgs/mdns-publisher/main.go:850-887 | a reply goes out by unicast with the top bit of the question's class set or to a legacy querier, by multicast otherwise; only a legacy response repeats ID and questions |
| `Zone.SilentUnlessAsked` | pkgs/mdns-publisher/main.go:857-887 | a response is sent if and only if some question of its kind has a reply |
| `Zone.LegacyResponse` | pkgs/mdns-publisher/main.go:827-888 | a legacy querier gets its ID and questions back, no flush bit, TTLs of at most 10 s, only zone records, and nothing is multicast (section 6.7 of RFC 6762) |
| `Zone.CapTtls` | pkgs/mdns-publisher/main.go:840-849 | the copies' TTLs are capped in place and nothing else about them changes |
| `Zone.Server.AnswerQuery` | pkgs/mdns-publisher/main.go:827-888 | both responses as specified, without changing any existing object, so the zone's records stay as they are |
| `Zone.TypesExact` | pkgs/mdns-publisher/main.go:304-327 | the type list is strictly ascending and holds exactly the types present |
| `Zone.BuildNsecRecord` | pkgs/mdns-publisher/main.go:304-327 | that list comes out whatever order the set is walked in; nothing for no records |
| `Zone.RecordsForIps` | pkgs/mdns-publisher/main.go:484-513 | the loop gives one record per usable address |
| `Zone.AddressRecords` | pkgs/mdns-publisher/main.go:484-513 | which octets give an A record, an AAAA record or nothing |
| `Zone.DenialFields` | pkgs/mdns-publisher/main.go:304-327 | name, type, class and TTL of the denial |
| `Zone.HostnameZone.CompareRecords` | pkgs/mdns-publisher/main.go:157-174 | the nested loops decide the specified comparison |
| `Zone.HostnameZone.ReplaceRecords` | pkgs/mdns-publisher/main.go:178-193 | on a change the zone owns new copies and the old records come back as copies; otherwise nothing changes |
| `Zone.Server.AddressesChanged` | pkgs/mdns-publisher/main.go:577-578 | one address change as a step of the zone's history |
| `Zone.WatchConsistent` | pkgs/mdns-publisher/main.go:540-592 | after any run of address changes the negative record is the one built from the records beside it |
| `Zone.DenialTruthful` | pkgs/mdns-publisher/main.go:131-141 | after any such run the negative record is given if and only if the name is ours, the class IN, the type not ANY and held by no record, and its bitmap is the exact ascending type set |
| `Zone.ChangeNoticedIff` | pkgs/mdns-publisher/main.go:157-174 | with some usable address unlisted, the comparison notices every change of address list if and only if the list names no address twice |
| `Zone.RepeatedHidesChange` | pkgs/mdns-publisher/main.go:157-193 | with an address listed twice, replacing one copy by any new address leaves the zone as it was |
| `Zone.ZoneFollowsInterface` | pkgs/mdns-publisher/main.go:540-592 | without repeats the zone holds, after every change, exactly the latest addresses |

## Left out

- QUIC itself (pkgs/microdoh3/src/quic.rs) and polling (pkgs/microdoh3/src/event.rs): a connection is an epoch, stream ids not used in it, and arbitrary events.
- Bootstrap resolution (pkgs/microdoh3/src/bootstrap.rs) and URL parsing (pkgs/microdoh3/src/url.rs): configuration-time code with easier claims.
- The QPACK static table's contents (pkgs/microdoh3/src/qpack_static.rs): the table is a parameter of every decoding theorem.
- Weak memory and wrap-around of the 32-bit sequence counter: pages are sequentially consistent and the counter unbounded. An address is stored and loaded as one field.
- `ScorePage.DeathHarmlessIff`: score values are unbounded naturals, so that one no earlier write had always exists.
- Memory mapping, fork, signals, CPU discovery and pinning, command line, logging, sleeps and sockets of both programs. Forks, clock readings and datagrams are parameters.
- Round-trip estimation and the counters sent in score samples (pkgs/microdoh3/src/worker.rs:98-150): a sample's numbers are arbitrary, so the results hold for all of them.
- `Dns.PadQuery`: 16-bit additions wrap, as in a release build; a debug build would stop on overflow instead.
- Whether a batch can report a finished handshake after the loss of its connection is decided by the QUIC library. The code would then believe itself ready without a connection; `Worker.Loop.ProcessQuicEvents` covers such a batch and marks it, and the one-place result is stated for runs without it.
- In the worker, reading a stream hands over an HTTP/3 event; how bytes become such events is in `H3.dfy`.
- Case folding of names is ASCII only, and addresses are octets in normal form (4 or 16 of them).
- `sort.Slice`, `slices.Sort` and Rust's stable sort are represented by insertion; results depend only on order and contents, and `Tiebreak.SortedUnique` shows that no other sort could differ.
- Conflict detection on responses, announcements, goodbyes and message packing of mdns-publisher.
- The client preamble (pkgs/microdoh3/src/h3.rs:65-76): constant bytes.
