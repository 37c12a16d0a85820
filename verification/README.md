# masqr, modelled and proved in Dafny

masqr is a tunnel core for Windows. It routes chosen addresses over HTTP/3 or HTTP/2 (CONNECT-IP) and
is the machine's resolver, so that resolving a name can add its addresses to the tunnel. This project
models the parts of it that decide something, and proves what they promise.

| part | files | main results |
|---|---|---|
| the fq_codel packet queue | `Packets`, `QueueModel`, `QueueLog`, `QueueInvariant`, `QueueFairness`, `QueueTheorems`, `QueueService`, `QueueStarvation`, `QueueSignals`, `QueueOperations`, `QueueReadings`, `QueueInner` | the ledger over every run, fairness, who can be starved and who cannot, work conservation, when CoDel signals and when it does not, overflow, acknowledgement thinning, stale sweeps |
| the IP header arithmetic | `Checksum`, `HopLimit`, `Packets` | every rewritten header verifies, and nothing else changed |
| the HTTP/2 and HTTP/3 codecs | `Varint`, `Capsule`, `Tcp`, `Frames`, `Control` | independence of how a stream is cut, exact acceptance, end to end |
| header compression | `Huffman`, `HuffmanCodec`, `HuffmanTables`, `HpackCode`, `PrefixedInt`, `StaticTable`, `Qpack` | decoding is exact, for any complete canonical code and then for the one in use |
| DNS | `DnsNames`, `DnsMessages`, `Policy` | reading agrees with a declarative description; rules mean what was written; lookup is first match |
| what is routed | `Leases`, `Routes` | lease promises over every run; bookkeeping under any refusals; an address that carries traffic keeps its route |
| keeping the tunnel up | `Carriers`, `EngineModel`, `Engine` | the phases of every run, the waits, the choice of carrier, the parking of HTTP/3 and its letting go |

## How it is built

Where the source updates state in place, the model is a class with the source's fields and methods,
and each method is proved against a specification function or relation of the state before. What the
source promises is then proved about those functions, over every run where the promise is about
runs. The queue keeps a ghost log of what it did; `QueueTheorems.TheLogTellsTheCalls` shows that the
log's arrivals and deliveries are what callers pushed and received, so statements about the log are
statements about the queue.

Octets are integers below 256, and bit fields are quotients and remainders of powers of two.
Fixed-width arithmetic is written out where it can matter: the 64-bit accumulator of the Huffman
encoder, the 32-bit sum of a checksum, the 32-bit serial comparison of acknowledgements, the 64-bit
reading of prefixed integers. The clock is an argument of every operation and may take any value,
going backwards included, except where a lemma says otherwise. The square root of CoDel's control law
is a parameter of the model, and every theorem holds for every such law. What the network does is an
argument too: an engine's run is a function of what each turn meets.

## Where the source is not what it says

Each comes with the exact condition under which it does not show.

- The comment at `src/queue.rs:410-412` says that a fresh bucket found empty goes to the back of the
  backlogged ones, as section 4.2 of RFC 8290 has it. The code at `src/queue.rs:433-442` takes it out
  of service. So newcomers that start anew in turn keep a backlogged bucket waiting for as long as they
  keep coming: with bare headers of two flows and a packet that waits in a third bucket,
  `QueueStarvation.NewcomersOfTwoFlows` starves it of any number of octets. Nothing else starves a
  bucket: over any window of any run, what is delivered past one that waits is bounded by a lag for
  each newcomer and each other bucket (`QueueService.WaitingBucketsAreServed`), so it is bounded
  exactly when the newcomers are (`QueueStarvation.WaitingIsBoundedIffNewcomersAre`).
- The shortest lease is not kept to the nanosecond, since the table's clock is whole milliseconds,
  rounded down on both ends: an address recorded at 0.999999 ms is gone after an `expire` at exactly
  600,000 ms (`Leases.TheShortestLeaseCanEndEarly`). It is kept exactly for a moment before the table's
  start or on a whole millisecond, or a longer lease (`Leases.KeptToTheNanosecond`).
- `record` promises `true` only when the addresses held changed (`src/dns/lease.rs:86-88`). It says
  exactly that some record was about an address not held before. That is a change for certain exactly
  when the table had room for one more or the last record is about an address not held before
  (`Leases.WhenTrueIsAChange`); into any full table, every other answer with a new address can leave the
  same addresses held (`Leases.TrueCanChangeNothing`).
- An HTTP/3 try that ends without opening is parked, but for one that is dropped with the HTTP/2 tunnel
  it was opening beside (`src/engine.rs:418-424`): then the next attempt tries HTTP/3 again at once
  (`EngineModel.ADroppedUpgradeIsNotParked`). `EngineModel.ParkingHolds` covers every try of every run.
- Reading a reply can look past its last record: a compression pointer leads backwards, but the labels
  it leads to may run on past the record (`DnsMessages.TheLastRecordIsNotTheEnd`). A reply cut short
  reads, and reads alike, exactly when the cut is past what reading it looks at
  (`DnsMessages.WhenACutIsHarmless`).
- A field that is an entry of the static table is written as its index, but not always in the one octet
  that `src/transport/qpack.rs:141` speaks of: entry 95 takes two (`Qpack.AWholeEntryCanTakeTwo`). One octet is
  enough exactly for the first sixty-three entries (`Qpack.WhenAFieldIsOneOctet`). That every field is
  written in the smallest form there is without Huffman coding, as the same comment says, does hold
  (`Qpack.TheSmallestFormIsWritten`).
- A checksum is summed in thirty-two bits, which is right for anything shorter than 128 KiB and, beyond
  that, exactly under the condition of `Checksum.WhenWrappingIsHarmless`. It is wrong for 131,076 octets
  of 255 (`Checksum.WrappingCanHarm`).

## Model

| member | source | states |
|---|---|---|
| QueueTheorems.EveryPacketIsAccounted | src/queue.rs:286-542 | after any run of pushes, pops, sweeps, measurements and readings of the statistics, every packet accepted into a bucket is exactly one of delivered, dropped over the limit, dropped over target, thinned, stale or waiting; what was delivered and then what waits is a subsequence of what arrived |
| QueueTheorems.TheLogTellsTheCalls | src/queue.rs:286-445 | the arrivals and deliveries of the ledger, interleaved as they happened, are exactly the packets pushed and the packets `dequeue` returned |
| QueueTheorems.CountersAreRight | src/queue.rs:91-160 | after any run the totals equal the sums over buckets, each statistic counts its own events, a bucket is on exactly one service list, once, iff it is listed, whatever waits is listed and in the bucket its headers name, and interval and target stay in proportion and in bounds |
| QueueReadings.WorstWaitIsExact | src/queue.rs:260-461 | after any run the worst wait is the longest that any packet had waited which `dequeue` took out of a bucket since the statistics were last read, dropped ones included (as the comment at 459-460 has it, and the one at 136 does not), and zero if it took none |
| QueueTheorems.DeliveriesAreFaithful | src/queue.rs:486-550 | a delivered packet is one that waited, unchanged or with the congestion mark it was willing to carry, from the bucket its headers name; a new mark or a drop over target comes right after a signal to its bucket |
| QueueTheorems.BurstsAreNeverPunished | src/queue.rs:451-542 | any mark or drop at `now` is preceded by a moment at least one interval earlier from which on every packet taken from the bucket had waited the target then in force and left more than a quantum behind, with no stale sweep in between |
| QueueSignals.SignalsAreExact | src/queue.rs:451-542 | after any run, a packet taken is signalled iff it stood (target waited, more than a quantum left) and so had its bucket for an interval, and, within an episode, the moment due has come and it is not the one after the episode's first drop; straight away, by a mark iff it is willing, else dropped over target with the next one taken; any other packet taken is delivered as it is, and no other signal is ever given |
| QueueSignals.TheStateRemembers | src/queue.rs:95-108 | after any run, a bucket's clock, episode, count and next moment are what the log alone says of them, the clock being an interval after the packet that began the stretch in which every packet taken stood, and none if there is no such stretch |
| QueueSignals.SignalsKeepPace | src/queue.rs:486-560 | after any run, in one dequeue: outside an episode a bucket gets at most one signal, which begins one, at the last count less two if that was above two and the last moment due is less than sixteen intervals ago, else at one, the next due law(interval, count) from now; within, each signal counts one and moves the next on by law(interval, count), but for a drop after which the delay stands no longer, which ends the episode |
| QueueOperations.PacketsAreTakenInTurn | src/queue.rs:407-480 | a dequeue takes packets from the heads of buckets alone, in turn, and the log tells of each when it was taken, the octets it left in its bucket and the target and interval in force |
| QueueTheorems.TheSchedulerConservesWork | src/queue.rs:407-542 | CoDel returns nothing only for a bucket that was already empty, and `dequeue` returns nothing exactly when no packet waits anywhere |
| QueueModel.RefillPaysOne | src/queue.rs:419-428 | each refill pays one of the quanta still owed, which with the number of listed buckets is why the loop of `dequeue` ends for any deficits |
| QueueFairness.CreditsStayInBounds | src/queue.rs:407-445 | after any run every listed bucket has a credit from 1 − L to a quantum, and nothing that waits is longer than L, the longest packet pushed |
| QueueStarvation.NewcomersStarve | src/queue.rs:407-445 | from a state where only one dry bucket is fresh, any number of rounds, each pushing one short packet of a bucket out of service and popping one, leaves the backlogged list and everything its buckets hold and sent as they were, while the octets delivered in all grow by every round's packet, one newcomer to a round |
| QueueStarvation.OneRound | src/queue.rs:407-445 | in such a round the newcomer's packet itself comes out, the bucket served before leaves service, and the state is such a one again |
| QueueStarvation.StarvationIsReached | src/queue.rs:286-445 | a run from the empty queue reaches such a state with a backlogged bucket whose packet waits, for any packet of at most a quantum that is no pure acknowledgement |
| QueueStarvation.NewcomersOfTwoFlows | src/queue.rs:286-445 | with real packets, whose buckets are computed: n newcomers of two flows starve a third bucket of 20 · n octets, for every n |
| QueueService.WaitingBucketsAreServed | src/queue.rs:407-445 | after any run and over any window, a bucket with something waiting throughout is delivered from before more than (63 + N) · (3 quanta + 2L − 2) octets have been delivered in all, N being the pushes of the window that bring a bucket into service |
| QueueService.DequeueClaims | src/queue.rs:407-445 | a dequeue that leaves a bucket in service and sends it nothing raises no other bucket's claim: what it sent, with its credit and a quantum for each time it comes up before the first has the credit to be served |
| QueueStarvation.WaitingIsBoundedIffNewcomersAre | src/queue.rs:407-445 | for every control law and longest packet: the octets delivered past a waiting bucket that is sent nothing have a bound iff the newcomers have, or no packet is as long as an IPv4 header, so that all share one bucket |
| QueueStarvation.HeaderBuckets | src/queue.rs:670-704 | two bare IPv4 headers that differ in the last octet of an address fall into buckets 63 and 22 |
| QueueFairness.RoundRobinIsFair | src/queue.rs:407-445 | over any window of any run in which two buckets stay backlogged, their refills differ by at most one, each delivers a quantum per refill less its change of credit, every listed credit is from 1 − L to a quantum, and the octets delivered differ by at most three quanta and 2L − 2, L being the longest packet |
| QueueFairness.WindowConserves | src/queue.rs:407-445 | over such a window, whatever is pushed, popped, swept, measured or read, each bucket's octets delivered less its quanta plus its credit stay the same, and so does the refill race between the two |
| QueueTheorems.RoomIsMade | src/queue.rs:286-293 | making room ends with the arrival fitting, or, only for an arrival longer than the limit, with nothing left |
| QueueTheorems.EvictionsAreNeeded | src/queue.rs:286-293 | each eviction happens while the arrival still would not fit |
| QueueTheorems.BystanderIsSpared | src/queue.rs:354-373 | a bucket holding at most a sixty-fourth of the room the arrival leaves loses nothing to overflow |
| QueueOperations.OverflowTakesTheOldestOfTheLongest | src/queue.rs:286-373 | overflow step by step: while the arrival does not fit two mebibytes and anything with octets waits, the oldest packet of the longest bucket goes, the last of those that tie, and nothing else changes |
| QueueTheorems.TheLimitHolds | src/queue.rs:286-307 | after any run the octets held are at most the limit, or the longest packet pushed if that is longer than the limit |
| QueueTheorems.ThinningIsExact | src/queue.rs:323-347 | thinning removes precisely the redundant acknowledgements except the last and keeps everything else in its order |
| QueueTheorems.OnlyOlderAcksAreRedundant | src/queue.rs:596-627 | octet by octet: beside a bare acknowledgement, exactly a bare acknowledgement of the same connection that is strictly behind in 32-bit serial arithmetic is redundant; it is in the same bucket, and never an equal one or one ahead |
| QueueOperations.ArrivalIsExact | src/queue.rs:286-347 | an arrival waits behind all that is left in its bucket after overflow and, if it is a bare acknowledgement, after the older ones of its connection are gone but for the last; no other bucket changes; a bucket out of service comes into it last of the fresh ones with 1280 octets of credit |
| QueueInvariant.ApplyKeeps | src/queue.rs:286-579 | every operation keeps the whole invariant: totals, service lists, ledger, counters and the justification of every signal |
| QueueInner.Inner.Enqueue | src/queue.rs:286-307 | the method's whole new state is that of the specification, invariant included |
| QueueInner.Inner.ThinAcks | src/queue.rs:323-347 | removing by index, back to front, equals sifting the waiting packets once |
| QueueInner.Inner.DropFattest | src/queue.rs:354-373 | it takes the head of the longest bucket, the last of those that tie, and says whether any had octets |
| QueueOperations.SweepIsExact | src/queue.rs:383-404 | each bucket loses exactly the packets at its head that had waited the age or longer, with its standing-delay clock and its episode; credit, service and all else stay; what was dropped is counted; if the bucket's packets arrived in order of time, nothing so old is left |
| QueueInner.Inner.DropOlderThan | src/queue.rs:383-404 | the in-place sweep reaches the state of `QueueOperations.SweepIsExact`; the answer is the number dropped; the invariant is kept |
| QueueInner.Inner.DropStale | src/queue.rs:250-257 | the same sweep with the age after which senders have sent again |
| QueueInner.Inner.Take | src/queue.rs:451-480 | the head leaves, the totals follow, and the standing-delay clock starts, runs or stops as specified |
| QueueInner.Inner.Codel | src/queue.rs:486-542 | the two loops of marking and dropping reach the state and packet of which `QueueSignals.SignalsAreExact` and `QueueSignals.SignalsKeepPace` speak |
| QueueInner.Inner.Dequeue | src/queue.rs:407-445 | the service loop reaches the specified state and packet, and keeps the invariant |
| QueueInner.Inner.ObserveRtt | src/queue.rs:571-579 | the method reaches the state of `QueueOperations.MeasurementIsSmoothed`, and the invariant is kept |
| QueueOperations.MeasurementIsSmoothed | src/queue.rs:571-579 | the interval becomes seven eighths of itself and an eighth of four round trips, rounded down, between 50 and 300 milliseconds; the target is a twentieth; nothing else changes |
| QueueOperations.MeasurementsSettle | src/queue.rs:571-579 | measuring the same round trip again brings the interval closer to four of them and never past, until less than eight nanoseconds are missing |
| QueueInner.Inner.Stats | src/queue.rs:260-276 | it tells the counters, the number of buckets with something in them and the worst wait, which starts afresh; nothing else changes, and the invariant is kept |
| Packets.MarkCongestion | src/queue.rs:633-663 | the buffer edited in place is the specified one, and willingness is reported |
| Packets.MarkIsExact | src/queue.rs:633-663 | a packet is marked iff it says it can be; a marked one reads as congested and, unless it was marked already and is left as it is, differs only in the congestion field and, for IPv4 of any header length from 20 to 60, the checksum, which then verifies |
| Packets.MarkIsIdempotent | src/queue.rs:633-663 | marking twice equals marking once |
| Packets.MarkKeepsFlow | src/queue.rs:633-704 | marking never moves a packet to another bucket |
| Packets.FindFlow | src/queue.rs:670-704 | the hash loop computes the specified bucket |
| Packets.KeysAreExact | src/queue.rs:670-704 | octet by octet: what the hash is computed from is the same iff both packets are unreadable, or both of one version with the same addresses, protocol and, for TCP and UDP, ports or lack of them |
| Packets.ConnectionSharesBucket | src/queue.rs:596-610 | packets of one connection share a bucket, so thinning looks in the right one |
| Packets.PureAckIsExact | src/queue.rs:615-627 | octet by octet: a bare acknowledgement is TCP over IPv4 or IPv6, exactly header and twenty octets long, without options, with the ACK flag and no other, and acknowledges the four octets from the ninth of its TCP header |
| Packets.SameConnectionIsExact | src/queue.rs:596-610 | octet by octet: one connection is one version, whole headers, and the same protocol, addresses and ports |
| Checksum.FoldKeepsResidue | src/ip.rs:28-34 | one folding step keeps the sum modulo 65535 and never turns a nonzero sum into zero |
| Checksum.Sum.Add | src/ip.rs:17-25 | a run of octets adds its big-endian words, an odd last octet padded with zero, wrapping around in thirty-two bits |
| Checksum.Sum.Fold | src/ip.rs:28-34 | the folded, inverted sum is the complement of the sum's ones'-complement residue |
| Checksum.Compute | src/ip.rs:38-42 | the checksum of any run of octets in terms of that residue of its wrapped sum |
| Checksum.Ipv4Checksum | src/ip.rs:45-54 | for a header of any length, skipping the field's word equals summing its whole words with the field read as zero |
| Checksum.WhenWrappingIsHarmless | src/ip.rs:11-42 | the 32-bit sum gives the RFC 1071 checksum for up to 128 KiB, and for any run of octets iff what wrapped away is a multiple of 65535 and did not leave zero |
| Checksum.WrappingCanHarm | src/ip.rs:11-42 | a run of octets whose RFC 1071 checksum is 0 and for which the 32-bit sum gives 1 |
| Checksum.SealedVerifies | src/ip.rs:45-54 | writing that checksum into a header makes the header sum to all ones, whatever the field held: any header of even length whose sum fits, and one of odd length iff its last octet is zero; nothing else changes |
| HopLimit.DecrementHopLimit | src/transport/connect_ip.rs:314-339 | the packet edited in place is the specified one, or untouched when refused |
| HopLimit.ForwardingIsExact | src/transport/connect_ip.rs:314-339 | a packet is forwarded iff its header is whole and it has hops left; then its count is one lower, only the count and an IPv4 checksum changed, and the IPv4 header verifies |
| Varint.ReadsExactlyWhatIsWritten | src/transport/varint.rs:15-56 | a value is read in n octets iff the buffer starts with the n-octet encoding of a value that fits |
| Varint.RoundTrip | src/transport/varint.rs:15-56 | any of the four encodings of a value reads back as it, whatever follows |
| Varint.OctetsOfAnInteger | src/transport/varint.rs:45-56 | octet by octet: the length by the first octet's range, and the value in each of the four forms |
| Varint.Put | src/transport/varint.rs:15-26 | the shortest encoding that fits is appended |
| Varint.TheShortestIsWritten | src/transport/varint.rs:15-26 | no encoding that carries the value is shorter than the one written |
| Varint.Read | src/transport/varint.rs:45-56 | the loop reads the specified value, never past 2^62 − 1, and length, or waits |
| Varint.GetStable | src/transport/varint.rs:45-56 | a whole integer stays what it is however much more arrives |
| Capsule.EncodeDatagramInto | src/transport/capsule.rs:43-52 | a DATAGRAM capsule is appended whose reading back is the payload |
| Capsule.ShortDatagramsAre | src/transport/capsule.rs:43-52 | octet by octet: a packet shorter than 64 is written as a zero, its length and itself |
| Capsule.TakeCapsule | src/transport/capsule.rs:56-73 | the buffer loses exactly a whole capsule at its front, and nothing otherwise |
| Capsule.FrontOfWire | src/transport/capsule.rs:43-73 | any capsule, its integers in any lengths, is taken whole from the front, or refused iff longer than the limit |
| Capsule.FrontStable | src/transport/capsule.rs:56-73 | what was decided about the front stays decided however much more arrives |
| Tcp.Sender.Send | src/transport/tcp.rs:175-198 | every packet loses a hop in place, those with none left are left out, the rest go out in order as one write or not at all, and nothing stays staged |
| Tcp.Receiver.Receive | src/transport/tcp.rs:203-221 | one call of the loop yields the specified packet, buffer and rest of the stream |
| Tcp.CutsDoNotMatter | src/transport/tcp.rs:203-221 | however the stream is cut, repeated `recv` yields the packets, and the error, of a single reading of all its octets |
| Tcp.EndToEnd | src/transport/tcp.rs:175-221 | runs of packets as `send` writes them, interleaved with whole capsules of other types and cut anywhere, are received as exactly the packets with hops left, each one hop lower, in order; if something written is longer than MAX_CAPSULE, what comes before the first such is received, and then that is refused |
| Frames.FrameReader.NextFrame | src/transport/http3.rs:154-190 | the loop yields the specified frame, wait or error, and state |
| Frames.CutsDoNotMatter | src/transport/http3.rs:129-190 | however a stream is cut between `extend` calls, the frames drained and the error are those of a one-shot reading |
| Frames.StreamReadsBack | src/transport/http3.rs:154-212 | frames of known types come out whole and in order, unknown frames of any length vanish, and the first known frame over the limit is the error |
| Frames.KnownTypes | src/transport/http3.rs:194-205 | the types with a meaning are those below ten, and thirteen |
| Frames.FramesSurviveAnyCut | src/transport/http3.rs:129-212 | both together: frames written in any lengths of integers and cut anywhere read back |
| Frames.LittleIsBuffered | src/transport/http3.rs:154-190 | after any wait fewer than MAX_FRAME + 16 octets are buffered |
| Frames.PutFrame | src/transport/http3.rs:207-212 | a frame is appended in the form the reader takes |
| ControlStreams.SettingsAreExact | src/transport/http3.rs:253-279 | a SETTINGS payload is accepted iff it is whole settings, none reserved from HTTP/2 and none repeated, and it says what they say in whatever order they come |
| ControlStreams.TheFirstBadSetting | src/transport/http3.rs:253-279 | a refused SETTINGS payload is refused for the first setting reserved (identifiers 2 to 5) or repeated, or, if there is none, for ending in what is no setting |
| ControlStreams.ParseSettings | src/transport/http3.rs:253-279 | the loop computes the specified settings or error |
| ControlStreams.ControlStream.OnFrame | src/transport/http3.rs:298-322 | one frame is answered, and the stream settled, as specified |
| ControlStreams.RunsAreExact | src/transport/http3.rs:293-322 | a control stream is without error iff it opens with acceptable SETTINGS, after which only push frames and whole GOAWAYs come; its events are its settings and then each GOAWAY |
| ControlStreams.TheErrorIsTheFirst | src/transport/http3.rs:293-322 | a failing control stream fails at its first frame, for not being SETTINGS or for what that says, or at the first frame later without a place, malformed GOAWAY or unexpected kind, after the settings and every GOAWAY before it |
| ControlStreams.TheOpeningIsUnderstood | src/transport/http3.rs:218-232 | this side's own opening, cut anywhere after its type, is read as a settled control stream with datagrams and extended CONNECT on |
| Datagrams.UnframingIsExact | src/transport/http3.rs:365-376 | a packet is taken out of exactly the datagrams of this request and context zero that carry it, in any lengths of integers |
| Datagrams.OnlyItsOwnRequest | src/transport/http3.rs:349-376 | a framed packet comes out for its own request and for no other |
| Requests.RequestsAreUnderstood | src/transport/http3.rs:154-241 | a request of any fields, its frame cut anywhere, arrives as one HEADERS frame whose section decodes to those fields, or is refused with its length iff the section is longer than MAX_FRAME |
| PrefixedInt.RoundTrip | src/transport/qpack.rs:223-258 | for every prefix from 1 to 8, a value as written reads back iff value − (2^prefix − 1) < 2^63, and overflows otherwise |
| PrefixedInt.TheExamplesOfTheStandard | src/transport/qpack.rs:223-258 | the three examples of RFC 7541, Appendix C.1, written and read octet by octet |
| PrefixedInt.PartialSumsFit | src/transport/qpack.rs:246-256 | on any octets, accepted or refused, the sum after any number of groups the reader adds stays under 2^63 + 255, and every group's place value fits, so 64 bits never overflow |
| PrefixedInt.GetIntFits | src/transport/qpack.rs:239-258 | a number that is read is under 2^63 + 255 |
| PrefixedInt.ReadsBack | src/transport/qpack.rs:239-258 | every way of writing a number in up to nine groups, needed or not, reads back as it and leaves the flags above readable |
| PrefixedInt.WhatWasRead | src/transport/qpack.rs:239-258 | whatever reads as a number was one of those ways of writing it |
| PrefixedInt.ReadInt | src/transport/qpack.rs:239-258 | the loop, its running value, group and place value all 64 bits wide on every path, computes the specified number, length or error |
| PrefixedInt.PutInt | src/transport/qpack.rs:223-235 | the shifting loop appends the specified octets |
| Qpack.DecodingIsExact | src/transport/qpack.rs:166-285 | a section decodes to some fields iff it is the writing of lines, indexed, name-reference or literal, either N bit, strings plain or Huffman-coded, that mean those fields |
| Qpack.EverySectionReadsBack | src/transport/qpack.rs:166-285 | every mix of static-only representations, not only the encoder's choice, reads back |
| Qpack.AnIndexedLine | src/transport/qpack.rs:166-211 | octet by octet: 192 and an index of the static table |
| Qpack.ALineWithItsNameByIndex | src/transport/qpack.rs:166-211 | octet by octet: 80 or 112 and an index of the static table, the value's length, the value |
| Qpack.ALineWrittenOut | src/transport/qpack.rs:166-211 | octet by octet: 32 or 48 and a name's length, the name, the value's length, the value |
| Qpack.DynamicLinesAreRefused | src/transport/qpack.rs:166-211 | a line is refused as dynamic iff its first octet is 128 to 191, 64 to 79, 96 to 111, or below 32 |
| Qpack.RoundTrip | src/transport/qpack.rs:144-285 | what the encoder writes for any fields decodes to them |
| Qpack.Encode | src/transport/qpack.rs:144-162 | the loop appends the specified section |
| Qpack.TheSmallestFormIsWritten | src/transport/qpack.rs:138-162 | no static-only line without Huffman coding that says the same field is shorter, whatever entry it refers to and however its integers are written |
| Qpack.WhenAFieldIsOneOctet | src/transport/qpack.rs:141-162 | a field is written in one octet iff it is one of the first sixty-three entries of the static table |
| Qpack.AWholeEntryCanTakeTwo | src/transport/qpack.rs:141-162 | entry 95 of the static table, as a field, is written in two octets |
| Qpack.Decode | src/transport/qpack.rs:166-211 | the loop computes the specified fields or error |
| Huffman.DecodingIsExact | src/transport/huffman.rs:130-168 | for any complete canonical code whose longest has eight bits or more, as padding of up to seven ones must be no code: decoding yields a text iff the input is its coding padded with fewer than eight one-bits |
| Huffman.EosIsExact | src/transport/huffman.rs:149-151 | for any such code: the end-of-string error arises iff the symbol is coded after whole symbols |
| Huffman.NeverUnderflows | src/transport/huffman.rs:138-161 | for any such code: `length` never passes the longest code and `code - first` never underflows |
| Huffman.SymbolAtPosition | src/transport/huffman.rs:147-149 | for any such code: the table index is in range and names the symbol whose code was read |
| HuffmanCodec.Decode | src/transport/huffman.rs:130-168 | the bit loop, with its running `code`, `first`, `index` and `length`, computes the specified text or error |
| HuffmanCodec.Encode | src/transport/huffman.rs:175-192 | the encoder with its 64-bit accumulator writes the codes in order and pads with fewer than eight ones |
| HuffmanTables.CountLengths | src/transport/huffman.rs:85-93 | the counts are the numbers of codes of each length |
| HuffmanTables.SortSymbols | src/transport/huffman.rs:97-113 | every symbol lands at its rank by length, then by symbol |
| HuffmanTables.TablesAreCanonical | src/transport/huffman.rs:85-113 | tables counted from a complete code whose codes follow one another are canonical: deriving codes from lengths gives back every code |
| HpackCode.TheCodeIsCanonical | src/transport/huffman.rs:13-113 | the 257 codes of Appendix B of RFC 7541 are a complete canonical code whose longest is 30 bits |
| HpackCode.HeaderStringsAreExact | src/transport/huffman.rs:130-168 | both exactness results for that very code |
| HpackCode.RoundTrip | src/transport/huffman.rs:130-192 | every string of octets survives being encoded and decoded |
| DnsNames.ReadName | src/dns/message.rs:169-229 | the reader ends on every message and offset with the specified name, end or error |
| DnsNames.ReadingIsExact | src/dns/message.rs:169-229 | a name and its end are read iff some spelling of labels and backward pointers within the caps says them |
| DnsNames.NamesAreDotted | src/dns/message.rs:169-229 | a name read is the labels of its spelling, in lower case, with dots between them |
| DnsNames.NamesAreBounded | src/dns/message.rs:169-229 | a name read is at most 254 characters, and ends past its start and within the message |
| DnsNames.CompressionKeepsTheName | src/dns/message.rs:173-195 | replacing any suffix by a pointer to an earlier spelling that reads the same gives the same name and ends two octets after the pointer's place iff that spelling has fewer than the cap of jumps, and is refused as a loop otherwise |
| DnsMessages.AnswersAreExact | src/dns/message.rs:110-161 | a reply reads as some addresses iff it is the questions and whole records its header announces and those are the addresses of its internet A and AAAA records of the right length, in order |
| DnsMessages.AddressIsExact | src/dns/message.rs:127-154 | a record gives an address iff it is of class 1 and of type 1 with four octets or of type 28 with sixteen, which are the address, most significant first |
| DnsMessages.OnlyAnswersCount | src/dns/message.rs:103-109 | nothing that comes after a reply that reads changes its answers |
| DnsMessages.WhenACutIsHarmless | src/dns/message.rs:110-161 | a reply that reads, cut anywhere, reads iff the cut is past the furthest octet that reading its announced questions and records looks at, and then reads alike |
| DnsMessages.AgreeingRepliesReadAlike | src/dns/message.rs:110-161 | two replies that agree up to there have the same answers |
| DnsMessages.TheLastRecordIsNotTheEnd | src/dns/message.rs:178-195 | a reply of 26 octets whose last record ends at 24 reads, and cut at 24 does not |
| DnsMessages.QueriesAreExact | src/dns/message.rs:84-100 | a query reads iff its header announces a question and the first one is whole |
| DnsMessages.ReadAnswers | src/dns/message.rs:110-161 | the two loops compute the specified addresses or error |
| Policy.Build | src/dns/policy.rs:164-220 | a policy is refused iff something is wrong, for the first fault; otherwise every rule is filed, as it is read, under exactly what it matches, lowest number first |
| Policy.FaultIsFirst | src/dns/policy.rs:164-206 | a policy is refused iff a resolver lacks its endpoint or repeats a name, or a rule names an undeclared resolver or matches nothing but dots; for the first of these, resolvers before rules |
| Policy.BuiltAsWritten | src/dns/policy.rs:191-200 | in a policy as built no name holds an upper-case letter, ends in a dot or is empty; each is what was written but for case and dots at its end, and each program but for case and slashes |
| Policy.WritingDoesNotMatter | src/dns/policy.rs:191-200 | rules that differ only in letter case, dots at the end of names and slashes in programs make the same policy |
| Policy.Candidates | src/dns/policy.rs:232-245 | the hash lookups on a name and its tails gather exactly the rules whose matcher holds |
| Policy.Decide | src/dns/policy.rs:228-261 | in terms of the rules as written: the first rule that matches the name, exactly or as what follows one of its dots, up to case and dots at the end, and that names no program or the asker's path or file name, up to case and slashes; with its resolver and route; none iff no rule does |
| Policy.SuffixMatchesAtLabel | src/dns/policy.rs:236-245 | a suffix matches iff it is what follows the start of some label |
| Policy.DecidesEverything | src/dns/policy.rs:281-287 | it holds iff some catch-all rule is about every program |
| Policy.EverythingMeansCatchAll | src/dns/policy.rs:276-287 | every name is decided for every asker iff there is such a rule |
| Policy.TheRootTellsAll | src/dns/policy.rs:193-287 | a policy that was built decides every name for every asker, and has such a rule, iff it decides the root name for an unknown program |
| Leases.Table.RecordAll | src/dns/lease.rs:89-122 | every record is taken in, in order; `true` iff some record is about an address not held before the call; on `false` the addresses are the same; with room for one more, or a last record about an address not held, `true` iff the addresses differ |
| Leases.WhenTrueIsAChange | src/dns/lease.rs:86-122 | of an answer with a new address, whatever the leases and times to live: the addresses held are sure to differ iff the table had room for one more or the last record is about an address not held |
| Leases.TrueCanChangeNothing | src/dns/lease.rs:108-117 | any full table and any other such answer come, in some run from the empty table, to leave the same addresses held |
| Leases.Table.Touch | src/dns/lease.rs:128-134 | a held address is renewed to at least the shortest lease from now, and nothing else changes |
| Leases.Table.Expire | src/dns/lease.rs:137-143 | exactly the leases whose time has passed go, and the answer says whether any did |
| Leases.Table.Soonest | src/dns/lease.rs:181-189 | the victim's expiry is minimal |
| Leases.TheTableIsBounded | src/dns/lease.rs:100-112 | over any run at most MAX_LEASES addresses are held |
| Leases.ALeaseIsWhatItWasTold | src/dns/lease.rs:89-134 | over any run, a lease lasts until the latest moment that a record since its address came to be held gave it, by its time to live between ten minutes and an hour, or a touch, by ten minutes; and it has the names of exactly those answers |
| Leases.ExpiriesNeverDecrease | src/dns/lease.rs:100-134 | while an address is held its expiry never decreases |
| Leases.AddressesInUseSurvive | src/dns/lease.rs:89-143 | absent its eviction, an address recorded, or touched while held, survives every `expire` less than the shortest lease later on the table's clock, whatever else happens |
| Leases.IdleAddressesGo | src/dns/lease.rs:137-171 | an address is gone after any `expire` the longest lease or more after its last event |
| Leases.EvictionTakesTheSoonest | src/dns/lease.rs:108-112 | only a new address into a full table evicts, one lease, whose expiry is minimal |
| Leases.TheShortestLeaseCanEndEarly | src/dns/lease.rs:169-175 | a lease can end less than the shortest lease after it was recorded, measured in nanoseconds |
| Leases.WhenALeaseLasts | src/dns/lease.rs:128-143 | over any run, a lease neither renewed nor evicted stays as it is until the first `expire` at or past its expiry, and no longer |
| Leases.KeptToTheNanosecond | src/dns/lease.rs:169-175 | the shortest lease is kept to the nanosecond iff it was given before the table's start or on a whole millisecond, or is longer |
| Leases.WhenItIsSoonEnough | src/dns/lease.rs:169-175 | an `expire` is less than the shortest lease later on the table's clock iff it comes before the shortest lease after the start of the millisecond the lease was given in |
| Leases.AddressesSurviveInTime | src/dns/lease.rs:89-175 | over any run, absent its eviction, an address recorded, or touched while held, survives every `expire` before that moment |
| Routes.InstalledRoutes.Apply | src/tun/mod.rs:396-430 | against a table that may refuse any row, every differing row is attempted once, removals first and each half in the order of its set; afterwards the set equals the table's rows, differs from what was wanted by exactly the refused rows, equals it iff none was refused, and the first refusal is the error |
| RoutingCore.Core.InstallUnion | src/core.rs:292-328 | every row of the union of asked prefixes and leased host routes, less IPv6 unless wanted and measured, is installed and no other, but for the refused rows, which stay as they were; it succeeds iff none was refused |
| RoutingCore.WantedIsExact | src/core.rs:292-306 | a prefix is wanted iff it was asked for or is the host route, of 32 or 128 bits, to an address leased, and is IPv4, or IPv6 while that is wanted and was found carried |
| RoutingCore.Core.SetRoutes | src/core.rs:214-217 | the whole new state: what is asked for is replaced, and the table follows but for what is refused |
| RoutingCore.Core.LeasesChanged | src/core.rs:220-222 | the whole new state: the leased addresses are as they are now, and the table follows but for what is refused |
| RoutingCore.Core.SetCarriesIpv6 | src/core.rs:239-258 | a finding that changes nothing touches nothing; any other makes the table equal the union but for what is refused |
| RoutingCore.OnlyRefusedRowsDiffer | src/core.rs:214-328 | over any calls under any refusals, the installed set equals the table's rows after every call, and differs from the union, after a call that installs, in exactly the rows refused |
| RoutingCore.WantedRowsStay | src/core.rs:208-217 | over any calls under any refusals, a row that is installed, and that some half wants whenever a call installs, is installed at the end |
| Traffic.TrafficKeepsItsRoute | src/dns/lease.rs:124-134 | over any run of leases and routes together: once an address has been recorded, or touched while held, and later its host route is in the table, the route stays there through any records, expiries, calls and refusals, as long as its family may be routed whenever rows are installed, it is not evicted, and no `expire` comes the shortest lease or more after it was last recorded or touched |
| Carriers.OpenH3 | src/transport/quic.rs:460-598 | an HTTP/3 try opens iff every stage answers as wanted within its wait, and takes at most the 4 + 4 + 2 seconds of its waits whatever becomes of it |
| Carriers.WaitForRoom | src/transport/quic.rs:414-434 | looking every twenty milliseconds finds room iff it comes within the wait, at the look that follows |
| EngineModel.PhasesOfARun | src/engine.rs:115-254 | the phases of any run are repetitions of Connecting, then optionally Up, or Up over HTTP/2 and then Up over HTTP/3, then Lost; each attempt is numbered, and each wait is that of `EngineModel.WaitsDouble`, by the losses since a tunnel last came up |
| EngineModel.WaitsDouble | src/engine.rs:230-231 | the wait after n losses is a second doubled n times, and fifteen seconds at most |
| EngineModel.TracesAreRounds | src/engine.rs:115-254 | the automaton every run follows accepts exactly such rounds and the start of one more |
| EngineModel.AnAttemptOpensOrParks | src/transport/connect_ip.rs:201-225 | under `auto`, with HTTP/3 not parked, an attempt ends over HTTP/3 iff that opens, over HTTP/2 iff that then opens within what is left of twenty seconds, and unless over HTTP/3 leaves it parked for ten minutes from when it failed; how long it takes |
| EngineModel.AnAttemptOverOne | src/transport/connect_ip.rs:201-225 | an attempt over HTTP/2 alone opens iff that does within twenty seconds, one over HTTP/3 alone iff that does; how long each takes, and that neither parks anything |
| EngineModel.TheChoiceIsKept | src/transport/carrier.rs:171-183 | over any run told one carrier, or unable to use HTTP/3, every tunnel is over that one, and HTTP/3 is tried in every attempt, parked or not, or in none |
| EngineModel.ParkingHolds | src/transport/carrier.rs:118-156 | under `auto`, over any run, every HTTP/3 try ends before the next, within its waits: if it failed, ten minutes pass or HTTP/3 is let go before the next; if it opened, or was dropped with the tunnel it was opening beside, HTTP/3 is not parked |
| EngineModel.LetGoWhenTold | src/engine.rs:236-254 | HTTP/3 is let go at each move of the line while a tunnel carries, when a reconnect is asked for, and in the wait after when either comes before it is over (a change of the line only if it moved); at no other moment |
| EngineModel.ShortLivesPark | src/engine.rs:187-212 | over any run, when a tunnel is over, not by handing over, HTTP/3 is parked at that moment iff the tunnel was over HTTP/3, had lasted less than a minute since it came up and carried less than 256 KiB, and is the third such in a row or follows one over HTTP/2 that handed over; and HTTP/3 is parked at no other moment but that of a failed try |
| EngineModel.ADroppedUpgradeIsNotParked | src/engine.rs:416-424 | a run in which a try is dropped with its tunnel and HTTP/3 is tried again a second later with nothing in between |
| EngineModel.WhenATryIsDropped | src/engine.rs:387-424 | a try begun at t beside a tunnel over HTTP/2 is dropped iff the tunnel stops before t plus what the try takes, and otherwise opens or fails then; only letting HTTP/3 go comes in between |
| EngineModel.LooksComeAround | src/engine.rs:385-414 | beside a tunnel over HTTP/2, HTTP/3 is looked at thirty seconds after a look that found it parked or a try that failed |
| EngineModel.RunKeeps | src/engine.rs:115-254 | every turn of every run keeps the invariant behind these results |
| Engine.Runner.OneTurn | src/engine.rs:125-253 | one turn of the loop reaches the specified state, with the phases it says and the deeds it does |
| Engine.Runner.Connect | src/transport/connect_ip.rs:201-225 | one attempt reaches the specified state and carrier |
| Engine.Runner.Pump | src/engine.rs:305-425 | taking what happens outside and what the upgrading side does in order of time reaches the specified state: looks every thirty seconds, one try at a time, a failed one parked, an open one taken over, a pending one dropped with the tunnel |
| Engine.Runner.CountLife | src/engine.rs:187-212 | the count, the parking and the log of a tunnel that is over, of which `EngineModel.ShortLivesPark` speaks |
| Engine.Runner.WaitOut | src/engine.rs:240-253 | the wait lasts as announced unless a reconnect or a change of line ends it, and those let HTTP/3 go |
| Engine.Runner.Run | src/engine.rs:115-254 | any number of turns reach the specified state |

## Left out

- Checksum.Sum.Add: with overflow checks compiled in, a sum past thirty-two bits stops the program instead of wrapping around; the model is of a release build.
- Engine.Runner.Pump: what happens to a tunnel and what its upgrading side does in the same millisecond may come in either order; the model lets the upgrading side go first.
- Opening HTTP/2: TCP, TLS and HTTP are one outcome that comes after any time, cut off by the attempt's twenty seconds; the reasons failures give are not modelled.
- The queue's waiting side (`pop_batch`, notification, closing), its mutex and the real clock: one method is one atomic step.
- The 32-bit width of CoDel's counts and of the statistics, and the floating-point square root of its control law.
- The distribution of the bucket hash; only that it is a function of the five-tuple.
- Rust's ownership of the packets that wait: buckets are sequences of values in a field of the queue, replaced as a whole when one changes.
- HTTP/2 flow control: whether room is granted is an input of `Send`, and its waiting is not modelled.
- Reading the response's status, which ends in the status-code type of another crate.
- Replacing a refused device, probing for IPv6, the journal's reasons and notices, and a carrier choice that changes while a run goes on.
- The file names and paths a lease or policy is logged by, tunnelled resolvers, and the DNS server and upstreams around them.
- Operating-system routing, adapters, pipes and interfaces: the routing table is one that may refuse any row at any time.
