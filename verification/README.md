# Verified models of the MT7921/MT7925 userspace driver and its measurement tools

The repository drives two MediaTek Wi-Fi chips from user space, in Python and in C, and measures what
they receive. This project models its bookkeeping-heavy parts and proves what that bookkeeping is for.
`dafny verify dfyconfig.toml` checks everything.

| file | what it models |
|---|---|
| `Wire.dfy` | octets, integers on the wire, bit fields, small sequence facts |
| `Elements.dfy` | 802.11 element walk, and both levels of fragment reassembly |
| `MultiLink.dfy` | the Multi-Link element, from the frame body down to the per-station profiles |
| `CsiTlv.dfy`, `CsiAccount.dfy`, `CsiWriter.dfy` | the strict CSI event parser and its validation; all counters and statistics of a history of events; bodies written from events |
| `BlockAck.dfy` | control-frame decoding, BlockAck windows and bitmaps |
| `Delivery.dfy`, `Visibility.dfy` | the recent-visibility window, one radio's capture, and the comparison of two |
| `ClockFit.dfy` | wrap-safe tick differences and the least-squares clock line |
| `Aggregation.dfy` | A-MPDU grouping |
| `RxDecode.dfy`, `RxWriter.dfy` | four receive-descriptor decoders: Python and C, connac2 and connac3; records written field by field |
| `McuLink.dfy` | MCU sequence numbers and the reply wait over a shared endpoint |
| `Download.dfy`, `RamImage.dfy`, `PatchLoad.dfy` | chunked download, RAM image acceptance, patch download under its semaphore |
| `RamWriter.dfy`, `PatchWriter.dfy` | images written from their records, and what a load of one sends |
| `G5Guard.dfy`, `TxGate.dfy`, `Mib.dfy` | fault-tolerant register guard, experimental transmit gate, counter requests and replies |
| `Rendezvous.dfy` | receivers and sender meeting at a barrier, all interleavings |
| `Radiotap.dfy`, `RadiotapWriters.dfy`, `Pcap.dfy` | radiotap headers and a reader of them, the two writers with their own field encoders, capture files |
| `RateVectors.dfy`, `Sniffer.dfy` | the rate words of a frame on both hosts, and the way from a received transfer to a packet |

How the model is built. Objects whose methods update fields are classes, loops are loops with
invariants, and buffers that C fills in place are arrays; each such method is proved against a function
of its inputs or of the old state, and the lemmas are about those functions. Octets are integers below
256, machine words are naturals read with explicit moduli, and shifts and masks are divisions and
remainders by powers of two. Devices, clocks and other processes are parameters: a list of reads that
may time out or break, a function giving the fate of every access, a schedule of thread steps.
What a reader of octets does is tied to a writer that shares nothing with it but the integers on the
wire: frames, elements, records, replies and images are put together from their parts with the layouts
spelled out again, and read back. The repository lacks these encoders; they are written from IEEE
802.11-2020 (sections 9.2.4, 9.3.1.8 and 10.28.11) and from the vendor layouts its sources cite.

Results that are not simply "it is right":

* Element reassembly restores a payload exactly when no Fragment element with content follows a last
  piece of full length; subelement reassembly exactly when no subelement numbered 254 follows a value
  whose last piece is full (`Elements.ExtensionRoundTrip`, `Elements.SubelementRoundTrip`).
* A reply is accepted as current exactly when it answers a command a multiple of fifteen before: what
  is accepted answers the current command if and only if the transfer is no such older reply
  (`McuLink.TakenExactly`, `McuLink.AcceptedIsCurrent`).
* C keeps only sixteen patch sections and still finishes the patch (`PatchLoad.TooManySections`), and
  sends sections of unknown encryption; `PatchLoad.HostsAgreeExactly` is the exact condition on an
  image for both hosts to send the same commands. C does not release a semaphore granted by a reply
  longer than its buffer, and releases every other (`PatchLoad.ReleasesExactly`); a semaphore counts as granted where
  the host sees it granted.
* A tune call without a band name fails but leaves the transmit gate open on the earlier tuning
  (`TxGate.NamelessTuneKeepsGateOpen`): the last tune before a write had succeeded if and only if it
  named a band (`TxGate.LastTuneExactly`).
* An MT7925 counter reply can be misread after a prefix of some length if and only if the length is
  odd (`Mib.PrefixLengthExactly`).
* The radiotap octets of the hosts are the same if and only if the signal is known and, for VHT, the
  width is 20, 40, 80 or 160 MHz and there is a stream; for HE, there are space-time streams (or, with
  none, a positive number of spatial streams that is a multiple of sixteen); for EHT, there is a width
  (`RadiotapWriters.SameHeaderExactly`). The decoders always give a stream of either kind, so the
  stream conditions concern records built by hand only.
* From the received octets on, the two packets are the same if and only if the signal is known, the
  channel index is at most 244 and not left to the channel asked for, a VHT width is in the tables, an
  EHT width of connac3 too, and HE does not hit the C decoder's gap: it sets the tones of a resource
  unit only where it computes a rate, so multi-user frames beyond coding scheme 11 or at 320 MHz, and
  106-tone frames beyond scheme 11, are written with an allocation of the width instead
  (`Sniffer.PacketsExactly`, `RateVectors.WrittenAlike`).
* The capture loops write the same file if and only if no frame has one to nine octets, which Python
  skips, and all longer ones have records treated alike (`Pcap.SameCaptureExactly`).
* Where C's counter scan succeeds, Python's reads the same entry if and only if no earlier one has
  another tag, which only C looks at (`Mib.PythonReads`).
* With timeouts, broken reads and reply buffers the two reply waits come to the same outcome exactly
  under `McuLink.SameWait` (`McuLink.HostsAgree`).
* No frame of a capture is dropped as backward if and only if all are within half a wrap of the first
  (`Visibility.NoneBackward`).
* The C channel field holds a 6 GHz channel only up to channel index 244 (`RxDecode.CRefinesPython`).
* The decoder's documentation in `rxd.py` says it returns nothing for other packets; the code returns
  the header fields, and the model follows the code.

## Model

| member | source | states |
|---|---|---|
| Elements.ParseIes | rxd.py:1040-1083 | the ordered list is the element walk and the index is the fold of first values and extension ids over it |
| Elements.FirstValueWins | rxd.py:1045-1066 | the id-keyed dict holds exactly the ids in the list, each with the value of its first occurrence |
| Elements.ExtIdsComplete | rxd.py:1061-1062 | an extension id is reported if and only if some extension element carries it |
| Elements.WalkEncode | rxd.py:1052-1083 | walking the encoding of any element list gives the list back |
| Elements.EncodeWalk | rxd.py:1053-1058 | the octets consumed are exactly the encoding of the elements returned, and no complete element starts where the walk stops |
| Elements.EncodeAppend | rxd.py:1052-1083 | concatenated element lists encode to concatenated octets |
| Elements.ReassembleExtension | rxd.py:605-628 | the indexed double loop computes the recursive reassembly |
| Elements.JoinFragments | rxd.py:619-627 | the inner loop takes Fragment elements up to the first that is not full |
| Elements.ReassembledPieces | rxd.py:605-628 | what reassembly returns for a fragmented element with any elements before and after |
| Elements.ExtensionRoundTrip | rxd.py:605-628 | over encoding and walking, the payload returns if and only if no non-empty Fragment element follows a full last piece |
| Elements.ReassembleSubelements | rxd.py:631-655 | the nested walk computes the recursive subelement walk, truncation included |
| Elements.JoinContinuations | rxd.py:643-653 | the inner loop, with the offset it leaves and whether a fragment overran |
| Elements.SubelementRoundTrip | rxd.py:631-655 | any subelement list comes back merged where ambiguous, and comes back itself, untruncated, if and only if it is unambiguous |
| Elements.MergedIsIdentity | rxd.py:643-653 | merging changes a list if and only if a 254 follows an open value, and then shortens it |
| MultiLink.WalkPresence | rxd.py:710-724 | the presence loop reads the fields whose bits are set, in order, until one does not fit |
| MultiLink.SubfieldsRoundTrip | rxd.py:710-724 | every choice of subfields, written with one octet for link, change count and MLD id and two for the others, is read back, each under its own name |
| MultiLink.ParseMultiLink | rxd.py:678-740 | the parser equals its specification over reassembled octets |
| MultiLink.PerStaRoundTrip | rxd.py:658-675 | a station profile built from link id, flags, address and extra octets, up to what the length octet can carry, parses back to it |
| MultiLink.ProfileCut | rxd.py:658-675 | a profile whose STA Info is too short for the address it announces says so and gives none |
| MultiLink.OtherBody | rxd.py:691-740 | of the other types only TDLS has an address, the AP's; the links are read all the same |
| MultiLink.BodyCut | rxd.py:696-706 | a body that ends before its Common Info does says its type and that it is truncated |
| MultiLink.BodyRoundTrip | rxd.py:688-740 | the MLD address, each of the six subfields, octets laid out one by one, and all station profiles come back from a built body |
| MultiLink.MultiLinkRoundTrip | rxd.py:678-740 | the same end to end, with any elements around: both fragmentations, octets, walk, both reassemblies, parse; the body comes back if and only if no non-empty Fragment element follows its full last piece, and then all it says is read back |
| CsiTlv.ParseTlvs | research/csi_event_summary.py:24-57 | the loop computes the recursive parse, error for error |
| CsiTlv.AcceptsExactlyEncodings | research/csi_event_summary.py:24-57 | a body parses to a field list if and only if it is the outer header, the encoded fields and a permitted tail |
| CsiTlv.BuildRoundTrip | research/csi_event_summary.py:24-57 | every ordered list of distinct tags that fits the body, with or without the permitted tail, parses back |
| CsiTlv.ZerosAreNoFields | research/csi_event_summary.py:34-43 | the 36-zero tail can never be a list of distinct fields |
| CsiTlv.TagCount | research/csi_event_summary.py:44 | the 64-field limit never refuses a list of distinct tags below 64 |
| CsiTlv.FreshMeaning | research/csi_event_summary.py:48-50 | well-formed means limits on every field and pairwise distinct tags |
| CsiTlv.PaddingIsTail | research/csi_event_summary.py:118-122 | the padding charged to an accepted body is 0 or 36 |
| CsiTlv.ValidatedUnpacks | research/csi_event_summary.py:84-91 | after validation every later unpack in the accounting succeeds and the sample arrays are equal, whole and non-empty |
| CsiTlv.ValidateFields | research/csi_event_summary.py:84-90 | the loop over the scalars, then layout and transmitter: the first failure in that order |
| CsiAccount.CsiSummary.Add | research/csi_event_summary.py:118-168 | all counters, sets and extremes stay those of the history extended by this body |
| CsiAccount.CsiSummary.Account | research/csi_event_summary.py:121-168 | one error, or one shape and padding and then one error or one event with its layout and statistics |
| CsiAccount.CsiSummary.CountEvent | research/csi_event_summary.py:128-168 | a valid event moves its counters, digest sets, sample counts and extremes, and nothing else |
| CsiAccount.Conservation | research/csi_event_summary.py:118-129 | over any history events plus errors equal bodies, and each event has one layout |
| CsiAccount.PaddingConservation | research/csi_event_summary.py:119-122 | every body not refused by the parser is charged one padding, never other than 0 or 36 |
| CsiAccount.ShapesMeaning | research/csi_event_summary.py:121 | each shape is counted once for every body that parses to it, valid or not |
| CsiAccount.StatisticsMeaning | research/csi_event_summary.py:130-168 | the digest sets hold exactly what valid events showed, overall and by receiver; every metadata and receiver counter is the number of events with its key; distinct payloads never exceed events; the sample counts and extremes are those of all samples |
| CsiWriter.SightFound | research/csi_event_summary.py:130-168 | of an event's fields in any order, every reading is counted under its name, the receiver by its index, and the samples and their digest are those of both arrays |
| CsiWriter.VerdictFound | research/csi_event_summary.py:60-91 | which events are valid, and which layout or error: report 22 of a CCK frame stores 64 pairs of 14 bits and counts 13, any other stores what it counts |
| CsiWriter.SummaryOfEvents | research/csi_event_summary.py:118-168 | from the octets of any history of events: each counter is the number of valid events that reported the value, and the sample statistics are those of their samples |
| BlockAck.AckMembers | research/control_frames.py:52-54 | a sequence is listed if and only if its window position is set, across the wrap |
| BlockAck.AckDistinct | research/control_frames.py:52-54 | no sequence is listed twice, and the list is as long as the set positions |
| BlockAck.ZeroPositions | research/control_frames.py:55-57 | bit length minus bit count is the number of clear bits below the highest set bit |
| BlockAck.ParsesAsWindow | research/control_frames.py:14-58 | an encoded BlockAck takes the window branch with its own addresses, TID and start |
| BlockAck.ControlRead | research/control_frames.py:14-40 | frames of other types are refused; only RTS, BlockAckReq and BlockAck have a transmitter address, or are reported short |
| BlockAck.BaRead | research/control_frames.py:42-46 | another BA type and a missing starting sequence are reported as such |
| BlockAck.StartRead | research/control_frames.py:46-51 | a request gives its start; a BlockAck of an unknown size or cut short gives no window |
| BlockAck.BlockAckRoundTrip | research/control_frames.py:42-58 | every acknowledged set in a window of any handled size comes back exactly |
| Delivery.DeliveryWindow.constructor | research/delivery_evidence.py:61-65 | an empty history |
| Delivery.DeliveryWindow.Expire | research/delivery_evidence.py:71-74 | the popping loop leaves the FIFO holding exactly the entries within the lookback and the dict their last ticks, though a key may appear twice at one tick |
| Delivery.PopKeepsIndexed | research/delivery_evidence.py:71-74 | the weaker relation between dict and FIFO that survives each pop |
| Delivery.DeliveryWindow.Remember | research/delivery_evidence.py:76-79 | last write wins in the dict and the FIFO grows by one |
| Delivery.DeliveryWindow.Seen | research/delivery_evidence.py:88-93 | the window loop finds exactly the sequences a search of the whole history finds |
| Delivery.DeliveryWindow.Answered | research/delivery_evidence.py:80-94 | nothing, warming up, or the naive window answer |
| Delivery.DeliveryWindow.Observe | research/delivery_evidence.py:67-94 | every answer is the naive one over the full history, and only entries within the lookback are kept |
| Delivery.InDataIsHeard | research/delivery_evidence.py:91-92 | a key is fresh in the dict if and only if some frame of the history carried it within the lookback |
| Delivery.SeenIsNaive | research/delivery_evidence.py:86-94 | set equality of the indexed and the naive answer |
| Delivery.QosRoundTrip | research/delivery_evidence.py:39-55 | a data frame written with two or four addresses, sequence and QoS control is keyed by transmitter, receiver, TID and sequence number, or has no key |
| Delivery.KeyedExactly | research/delivery_evidence.py:39-55 | octets have a key if and only if they are such a frame that is to be keyed, and then it is that frame's |
| Delivery.AnswerOfFrames | research/delivery_evidence.py:67-94 | from the octets on: a BlockAck lists what its sender acknowledged, and counts as seen exactly the numbers of its window that some frame within the lookback carried from its receiver to its transmitter |
| Visibility.Screen | research/delivery_evidence.py:115-133 | the fate of one reception: short, bad FCS, untimed, backward or shown, and its tick |
| Visibility.Capture | research/delivery_evidence.py:97-157 | with no assumption on the stamps, every answer is the naive one over the frames kept before it, and all counters are what they count |
| Visibility.FatesPartition | research/delivery_evidence.py:115-136 | every reception has one fate, and the frames counter is the number kept |
| Visibility.NoneBackward | research/delivery_evidence.py:127-133 | if the true times of usable frames never run backwards and are never more than half a wrap apart, no frame is skipped if and only if all are within half a wrap of the first |
| Visibility.Compare | research/delivery_evidence.py:186-201 | the four visibility counts, the exclusions and the shared events, and the four counts sum to the acknowledged total |
| Visibility.OpportunitiesConserved | research/delivery_evidence.py:198-201 | each acknowledged sequence of each shared event is exactly one of the four opportunities |
| ClockFit.DeltaIsTrue | research/dual_radio_probe.py:44-45 | the difference of two stamps is the true one if and only if that lies in the signed 32-bit range |
| ClockFit.NormalEquations | research/dual_radio_probe.py:56-62 | the fitted line's residuals are orthogonal to 1 and to x |
| ClockFit.ErrorOfOther | research/dual_radio_probe.py:56-62 | any other line's squared error exceeds the fitted line's by the squared change between them |
| ClockFit.FitIsLeastSquares | research/dual_radio_probe.py:56-62 | the fitted line has the least squared error of all lines, and is the only one that does |
| ClockFit.DegenerateExactly | research/dual_radio_probe.py:58-60 | there is no fit if and only if all x are equal |
| ClockFit.ByHostOrders | research/dual_radio_probe.py:52 | the pairs are put in host order and none is lost |
| ClockFit.FittedExactly | research/dual_radio_probe.py:50-79 | the status is "fit" if and only if there are pairs enough on both sides of the split and the training ticks are not all one |
| ClockFit.OutcomeExactly | research/dual_radio_probe.py:49-79 | each of the other outcomes is given in exactly the cases left: fewer than twenty pairs, a split too near an end, training ticks all one |
| ClockFit.FitClockMeaning | research/dual_radio_probe.py:73-91 | the full line is the least-squares line of all pairs and the training line that of the pairs before the split; the residuals are the full line's at every pair, the predictions' the training line's at every pair after |
| ClockFit.AffineClockRecovered | research/dual_radio_probe.py:48-91 | across a 32-bit wrap, for pairs within half a wrap of the first, an affine clock relation is recovered by the full fit and the training fit with zero residuals |
| Aggregation.OnAirBounds | rxd.py:1451-1454 | on-air octets are a multiple of four and exceed the payload by four to seven per subframe |
| Aggregation.AirtimeMeaning | rxd.py:1533-1536 | a subframe's airtime times its rate is its bits on air, and an unknown rate takes none |
| Aggregation.AggregationTracker.constructor | rxd.py:1518-1524 | nothing fed, nothing open, default slack 24 |
| Aggregation.AggregationTracker.Close | rxd.py:1570-1575 | the open aggregate is emitted and counted |
| Aggregation.AggregationTracker.Feed | rxd.py:1526-1563 | emitted aggregates followed by the open one stay the runs of everything fed, and the count is the number emitted |
| Aggregation.AggregationTracker.Place | rxd.py:1538-1561 | the three branches: single, continued, new |
| Aggregation.AggregationTracker.Flush | rxd.py:1577-1578 | the open aggregate is emitted and nothing can join it any more |
| Aggregation.RunsAreMaximal | rxd.py:1547-1561 | runs put end to end are the stream, join inside, and do not join across |
| Aggregation.RunsAreUnique | rxd.py:1547-1561 | no other segmentation has these properties |
| Aggregation.FramesOfRuns | rxd.py:1457-1469 | the aggregates' frame lengths in order are those of the stream |
| Aggregation.Track | rxd.py:1490-1578 | any calls of feed and flush emit exactly the maximal runs, with nothing lost, repeated or reordered |
| RxDecode.StartGrows | c/mt7921_rxd.c:315-316 | groups lie one after another |
| RxDecode.MaskIsPresence | c/mt7921_rxd.c:312-318 | each bit of the shifted mask is the presence bit in walking order |
| RxDecode.WalkGroups | c/mt7921_rxd.c:303-335 | the walk succeeds if and only if every group lies in the record and group 5 comes with group 3, and ends at the fixed length plus the sizes of the set groups |
| RxDecode.ReadGroup | c/mt7921_rxd.c:320-331 | what is kept of each group |
| RxDecode.WalkIgnoresTail | c/mt7921_rxd.c:308-311 | octets beyond the DMA length cannot change the walk |
| RxDecode.StrongestMeaning | rxd.py:152-156 | the signal is the largest negative chain reading, absent if and only if there is none |
| RxDecode.StrongestChain | c/mt7921_rxd.c:381-396 | the C loop finds the same reading, or -100 |
| RxDecode.DecodeC | c/mt7921_rxd.c:337-422 | what the C decoders accept, frames of raw packet type 17 included, and report |
| RxDecode.DecodePython | rxd.py:93-175 | where the Python decoders stop and what they report |
| RxDecode.StepGroups | rxd_connac3.py:216-240 | Python's offset, timestamp and signal word after stepping over the groups |
| RxDecode.CRefinesPython | c/mt7921_rxd_connac3.c:91-170 | on every buffer C accepts, Python decodes the same frame, time, FCS verdict, band and signal, and the same channel if and only if the channel index is at most 244 |
| RxDecode.CRefusesExactly | c/mt7921_rxd.c:306-319 | C accepts exactly what Python decodes and is well grouped |
| RxWriter.WordsRead | rxd_connac3.py:153-214 | from a written record: DMA length, packet kind, group bits, damage, padding, band, channel and FCS verdict |
| RxWriter.GroupsRead | c/mt7921_rxd.c:303-335 | each group's words, the timestamp and the end of the groups come back from where they were put |
| RxWriter.PythonReads | rxd.py:93-175 | decoding a written record gives back its band, channel, timestamp and FCS verdict, the strongest of its four signal octets, and the frame, as much as the DMA length leaves |
| RxWriter.PythonRefuses | rxd.py:118-122 | other packets and damaged frames are recognised |
| RxWriter.CReads | c/mt7921_rxd.c:337-422 | C accepts a written record if and only if it is an undamaged frame with all groups in the DMA length and group 5 with group 3, and reads the same, with the channel in one octet and -100 for no signal |
| McuLink.SameNumber | c/mt7921_mcu.c:54-60 | two commands share a number if and only if a multiple of fifteen apart |
| McuLink.Mcu.NextSeq | mt7921u.py:787-791 | the k-th number issued is ((k-1) mod 15) + 1 |
| McuLink.Mcu.WaitPython | mt7921u.py:854-901 | the wait ends at the first reply or failed read, and each counter grows by the transfers of its kind before it |
| McuLink.Mcu.WaitC | c/mt7921_mcu.c:258-309 | the same for C, which retries timeouts and refuses a reply longer than the caller's buffer |
| McuLink.ReplyExactly | c/mt7921_mcu.c:281-300 | a transfer is a reply if and only if it is an event with the wanted number, for both hosts |
| McuLink.KindRead | c/mt7921_mcu.c:275-305 | from a transfer built of first word, sequence octet and rest: each host's class of it |
| McuLink.KindsDiffer | c/mt7921_mcu.c:285-297 | the hosts count a transfer differently if and only if it is an MT7925 software frame of packet type 15, 23 or 31 |
| McuLink.ReplyIsNoFrame | rxd_connac3.py:179-205 | no accepted reply is a frame to that chip's decoders |
| McuLink.EndsAgree | c/mt7921_mcu.c:266-306 | Python never reads past where C stops, and both stop at the same read if and only if none before it timed out |
| McuLink.HostsAgree | c/mt7921_mcu.c:258-309 | for any reads and reply buffer, the outcomes are equal if and only if no read before C's end timed out and a reply there fits, or one did and C's end is a broken read |
| McuLink.TakenExactly | mt7921u.py:892-897 | a transfer that says which command it answers is taken for the current reply if and only if that command is a multiple of fifteen before |
| McuLink.AcceptedIsCurrent | mt7921u.py:892-897 | an accepted reply answers the current command if and only if it is not one answering a command a positive multiple of fifteen before |
| McuLink.RecentIsHarmless | c/mt7921_mcu.c:54-60 | in particular no reply of the fourteen commands before can be mistaken |
| McuLink.FrameTestsDiffer | c/mt7921_mcu.c:285-297 | the frame test of the C wait and that of the decoders differ exactly on raw packet type 17 |
| McuLink.AcceptFrom | mt7921u.py:852-901 | one wait: its reply is the first arrival that is one and fits, before any failed read, and answers the current command |
| McuLink.Session | mt7921u.py:823-901 | whole sessions on either host, with timeouts, failed reads, reply buffers and commands that do not wait: numbers as stated, and each wait takes the first reply that fits, which answers its own command, or nothing |
| Download.ExecuteIsPrefix | mt7921u.py:923-928 | what is sent is the plan, or the plan up to and including the first command that failed |
| Download.ExecuteAppend | mt7921u.py:923-928 | plans run part by part |
| Download.ChunksCarryAll | c/mt7921_mcu.c:435-444 | the chunks are of 4096 octets but for the last, none is empty, and they make up the data |
| Download.Link.Send | mt7921u.py:848-850 | every command attempted is logged, whatever the device answers |
| Download.Link.InitDownload | c/mt7921_mcu.c:425-433 | one announcement, by the command its address selects |
| Download.Link.SendFirmware | c/mt7921_mcu.c:435-444 | the scatter loop sends the chunks up to the first failure |
| Download.PartsCarry | mt7921u.py:1269-1288 | a plan whose parts carry given pieces carries them in order |
| RamImage.ParsePython | mt7921u.py:1002-1049 | accepts if and only if the metadata fits and the lengths sum to at most the payload |
| RamImage.ParseC | c/mt7921_mcu.c:349-382 | the running subtraction never underflows and accepts exactly what Python accepts with one to sixteen regions |
| RamImage.Load | c/mt7921_mcu.c:511-544 | nothing is sent for a refused image, and otherwise the plan up to the first failure, for both hosts |
| RamImage.LoadRegion | c/mt7921_mcu.c:523-536 | one region, skipped or announced and sent; the later bounds check of C never fires |
| RamImage.RegionsTile | mt7921u.py:1275-1288 | region slices are contiguous, in order, of full length and clear of the metadata |
| RamImage.RegionPlanCarries | mt7921u.py:1279-1288 | the chunks of a region carry its slice, and those of a skipped region nothing |
| RamImage.PlanCarries | mt7921u.py:1269-1292 | the whole plan carries exactly the downloaded regions, in order |
| RamImage.LoadDelivers | mt7921u.py:1269-1292 | a load that succeeds delivered every octet of every downloaded region once and in order |
| RamWriter.ImageParses | mt7921u.py:1002-1049 | from an image written record by record, the parsers find the count, the metadata and every record |
| RamWriter.ImageAccepted | c/mt7921_mcu.c:349-382 | it is accepted if and only if the records ask for no more than the payload, and by C only with one to sixteen of them |
| RamWriter.RestWritten | mt7921u.py:1269-1292 | the plan announces each record with its address, length and mode and sends its own octets, nothing for one marked so, and ends with the start request of its override |
| RamWriter.LoadWritten | c/mt7921_mcu.c:511-544 | loading it sends nothing if it is not accepted, and otherwise that plan or a prefix of it; all of it if the load succeeds |
| PatchLoad.ParseUpToMeaning | mt7921u.py:972-984 | a table parses if and only if every section lies in the image |
| PatchLoad.Parse | c/mt7921_mcu.c:313-347 | both parsers, with the C cap on sections |
| PatchLoad.Body | mt7921u.py:1248-1263 | Python's try block sends the plan up to the first failure, and its result is the status of the finish request, if that was sent and answered |
| PatchLoad.LoadPython | mt7921u.py:1236-1267 | with the finally clause: the log is the guarded plan and the outcome is the stated function of the device's answers |
| PatchLoad.LoadC | c/mt7921_mcu.c:463-509 | the same for the C control flow, with its own release before each of the five returns after the grant |
| PatchLoad.LoadedExactly | c/mt7921_mcu.c:499-508 | success if and only if the semaphore was granted, the image is sound with every section loadable, every command was answered, the finish request with zero, and in Python the release too |
| PatchLoad.SemaphoreReleased | mt7921u.py:1238-1267 | in what LoadPython and LoadC are proved to send, a granted semaphore is released exactly once, last; otherwise nothing but the request is sent |
| PatchLoad.FinishComesLast | c/mt7921_mcu.c:484-501 | the finish request is sent only after the commands of every section, all answered; which octets those carry is PatchWriter.WantedCarries |
| PatchLoad.PlanShape | mt7921u.py:1252-1260 | the plan is the sections before the first bad one in full, then the finish request if there is none |
| PatchLoad.HostsSendTheSame | c/mt7921_mcu.c:463-509 | on images that meet the condition, the two control flows send the same commands to every device whose semaphore reply fits the C buffer |
| PatchLoad.HostsAgreeExactly | c/mt7921_mcu.c:313-347 | for any declared count, they send the same to all such devices if and only if both tables are refused, or Python's is and C's first section is of another type, or both stop at the same section, or both have the same sections and stop at none |
| PatchLoad.SamePlanOfExactly | c/mt7921_mcu.c:482-498 | two tables of which one begins the other give the same plan if and only if both stop at the same section, or at none and are equal |
| PatchLoad.CommonExactly | mt7921u.py:1066-1067 | within sixteen sections the condition is that no encryption type before the first section of another type is unknown |
| PatchLoad.HostsDiffer | mt7921u.py:1066-1067 | without that condition a willing device sees C send more |
| PatchLoad.ReleasesExactly | c/mt7921_mcu.c:416-423 | C releases a semaphore the device granted if and only if the reply has at most 64 octets, and otherwise sends nothing more; Python always releases it |
| PatchLoad.TooManySections | c/mt7921_mcu.c:327 | with more sections C sends the first sixteen and then finishes |
| PatchLoad.LoadPatch | mt7921u.py:1236-1267 | a whole load on a fresh link, by either host: what is sent, the outcome, and the semaphore |
| PatchWriter.ImageParses | mt7921u.py:972-1000 | a written patch image is accepted if and only if its sections lie inside, and read as written, by C the first sixteen |
| PatchWriter.SectionWritten | mt7921u.py:1052-1068 | a section is announced with its address, length and mode of its encryption, and its octets, from its offset on for its length, follow in pieces of at most 4096 |
| PatchWriter.PlanWritten | c/mt7921_mcu.c:482-501 | the plan of a written image is its sections up to the first that must not be loaded, then the finish request if there is none |
| PatchWriter.WantedCarries | mt7921u.py:1252-1260 | the commands of a complete image carry exactly the octets of its sections, in order |
| PatchWriter.LoadWritten | mt7921u.py:1236-1267 | loading it on either host: what is sent, how it ends, and, when loaded, that exactly the octets of its sections were carried |
| G5Guard.Guard.Begin | c/mt7921_radio.c:117-127 | refused while active; otherwise the saved bit is the one before, and success means the bit is set |
| G5Guard.Guard.Restore | c/mt7921_radio.c:128-138 | succeeds if and only if the guard ends inactive, and then the register is as before |
| G5Guard.Run | c/mt7921_radio.c:117-138 | any calls over any faults: an inactive guard means the register is unchanged, and the other bits are unchanged throughout |
| G5Guard.TwoParts | c/mt7921_radio.c:116-136 | a register is its bit 23 and its other bits |
| TxGate.SafeAt | c/mt7921_radio.c:211-230 | every write of a safe log was allowed by what came before it |
| TxGate.EveryWrite | c/mt7921_dev.c:324-359 | every write is at a rate and power the chip may send and follows a successful 20 MHz tune to channel 6 for 1 Mb/s, or 36 or 149 for OFDM, not since undone, and on MT7925 a completed table |
| TxGate.TunedMeaning | c/mt7921_dev.c:324-359 | the tuning in force is that of the last tune that named a band, since the last bring-up |
| TxGate.TablesMeaning | c/mt7921_radio.c:206-210 | a rate is enabled if and only if some programming completed with no bring-up since |
| TxGate.DirtyMeaning | c/mt7921_radio.c:206 | dirty if and only if a table write came after the last bring-up that succeeded |
| TxGate.AtMostSixty | c/mt7921_radio.c:214 | at most sixty writes in any stretch without a bring-up |
| TxGate.WritesApart | c/mt7921_radio.c:222-227 | any two writes of one boot are at least 50 000 us apart |
| TxGate.ProgramTable | c/mt7921_radio.c:183-199 | done if and only if three writes succeed and one of a hundred polls finds the table idle before one fails |
| TxGate.CheckProbe | c/mt7921_radio.c:152-171 | the checks of a frame pass if and only if it is a probe request of 24 to 512 octets with a 12-bit sequence, at a rate and power the chip may send |
| TxGate.Device.Bringup | c/mt7921_dev.c:149-222 | the fields stay those of the log, whether or not it succeeds |
| TxGate.Device.Tune | c/mt7921_dev.c:324-359 | exactly when it succeeds, what it is tuned to then, and that failure clears the tuning unless no band was named |
| TxGate.Device.Prepare | c/mt7921_radio.c:200-210 | what is logged, and that success enables the rate |
| TxGate.Device.Transmit | c/mt7921_radio.c:211-230 | a write is attempted if and only if the frame is valid and the log allows it |
| TxGate.Run | c/mt7921_radio.c:200-230 | every run under a monotonic clock is safe |
| TxGate.LastTuneExactly | c/mt7921_dev.c:326-327 | the last tune before a write had succeeded on a channel of the write's rate if and only if it named a band |
| TxGate.FailedTuneExactly | c/mt7921_dev.c:326-327 | after a failed tune a write is allowed if and only if the tune named no band and the write was allowed before |
| TxGate.NamelessTuneKeepsGateOpen | c/mt7921_dev.c:326-327 | a failed tune after which a frame is still written |
| Mib.CheckOffsets | c/mt7921_radio.c:19-28 | the double loop accepts one to sixteen distinct offsets up to 511, one only on MT7921 |
| Mib.Request | c/mt7921_radio.c:29-42 | the request octets, for MT7925 equal to Python's, or nothing written |
| Mib.PutEntries | research/mt7925_mib_characterize.py:70-75 | the entries stored in place are Python's packed entries |
| Mib.VisitOne | c/mt7921_radio.c:57-68 | one scan position for one offset, failing only on a short or second match |
| Mib.Visit | c/mt7921_radio.c:57-68 | one scan position for every offset |
| Mib.Scan | c/mt7921_radio.c:54-69 | succeeds if and only if every offset has exactly one even-aligned match, in full |
| Mib.Parse | c/mt7921_radio.c:43-72 | success exactly as stated, every value read from its one entry, and no output on failure |
| Mib.SingleRead | c/mt7921_radio.c:48-52 | an MT7921 reply gives the word that follows its first 28 octets, for any one valid offset |
| Mib.MatchesMeaning | c/mt7921_radio.c:57-63 | the positions listed are exactly the even ones that match |
| Mib.GenuineOrFail | c/mt7921_radio.c:55-65 | a genuine entry at an even position is the one a successful parse reads |
| Mib.EvenPrefix | c/mt7921_radio.c:43-72 | after any even-length prefix the genuine values come back or the parse fails |
| Mib.OddPrefixMisleads | c/mt7921_radio.c:55-57 | for every odd prefix length there is a reply that parses successfully to a value its entry does not carry |
| Mib.PrefixLengthExactly | c/mt7921_radio.c:43-72 | genuine values or failure for every reply after a prefix of this length, if and only if the length is even |
| Mib.ParseCounter | research/mt7925_mib_characterize.py:78-83 | the loop returns the value of the first match, whatever its tag |
| Mib.PythonReads | research/mt7925_mib_characterize.py:78-83 | where C finds its one entry, Python reads the same entry if and only if no match with another tag comes before it, and the same value if and only if there is none or the first carries that value |
| Mib.DeltaIsAdvance | c/mt7921_radio.c:103-112 | the delta is the counter's true advance if and only if that is within the bound and less than a turn |
| Rendezvous.NextInv | research/cross_measure.py:267-338 | every step of every worker keeps the rendezvous invariant |
| Rendezvous.NoEarlyInjection | research/cross_measure.py:93-103 | in every schedule, a frame can be injected only after every worker took its opening sample |
| Rendezvous.ExitMeansComplete | research/cross_measure.py:387-400 | after the joins, an exit code other than 2 means every worker completed its dwell |
| Rendezvous.RankFalls | research/cross_measure.py:267-338 | every step lowers the rank |
| Rendezvous.SchedulesEnd | research/cross_measure.py:329-338 | no schedule is longer than the rank |
| Rendezvous.SomeoneCanMove | research/cross_measure.py:269-275 | while someone has not finished, some worker can move without a timeout |
| Rendezvous.AllJoinsReturn | research/cross_measure.py:335-338 | from every reachable state all joins can return without a timeout |
| Rendezvous.FailureReleases | research/cross_measure.py:269-275 | once a failed worker has finished, every waiter is released |
| Radiotap.RowRoundTrip | examples/sniff_to_pcap.py:118-213 | a field reads back from where alignment puts it |
| Radiotap.PresentBits | examples/sniff_to_pcap.py:86-115 | the present word shows exactly the fields that are there |
| Radiotap.TlvsRoundTrip | examples/sniff_to_pcap.py:218-253 | a TLV list reads back |
| Radiotap.HeaderRoundTrip | examples/sniff_to_pcap.py:84-215 | a bitmap-driven reader gets the content back and lands exactly on the stated length, whatever follows |
| RadiotapWriters.ContentFits | c/mt7921_rxd.c:470 | no header of any record is longer than 112 octets, so the 128-octet buffer suffices |
| RadiotapWriters.ModeFields | examples/sniff_to_pcap.py:86-115 | which fields and items each hardware mode number has on either host, and the format the HE field names |
| RadiotapWriters.PresentWord | examples/sniff_to_pcap.py:38-48 | the present word is the sum of the seven field bits and the TLV bit of what is there |
| RadiotapWriters.SameVhtExactly | c/mt7921_rxd.c:517-533 | the hosts' VHT fields are the same octets if and only if the width is 20, 40, 80 or 160 MHz and there is a stream |
| RadiotapWriters.SameHeExactly | c/mt7921_rxd.c:536-596 | the HE fields are the same if and only if there are space-time streams, or none and a positive multiple of sixteen spatial ones |
| RadiotapWriters.SameTlvsExactly | examples/sniff_to_pcap.py:218-253 | the U-SIG and EHT items are the same if and only if the width is not zero |
| RadiotapWriters.SameContentExactly | c/mt7921_rxd.c:463-634 | the contents are the same if and only if the signal is known and the field conditions hold for the mode |
| RadiotapWriters.SameHeaderExactly | c/mt7921_rxd.c:463-642 | so are the header octets |
| RadiotapWriters.PythonPresent | examples/sniff_to_pcap.py:86-115 | the chain of mode tests gives the present word and picks the field |
| RadiotapWriters.WritePython | examples/sniff_to_pcap.py:84-215 | the growing body, with its alignment steps and TLVs, is the header of Python's fields |
| RadiotapWriters.StoreVht | c/mt7921_rxd.c:517-533 | the twelve stores after the alignment extend the rows in the buffer by C's VHT field |
| RadiotapWriters.StoreHe | c/mt7921_rxd.c:536-596 | so do the six words of the HE field |
| RadiotapWriters.StoreEht | c/mt7921_rxd.c:601-634 | the alignment loop and the two word arrays extend it by the TLV section, within 112 octets |
| RadiotapWriters.WriteC | c/mt7921_rxd.c:463-642 | what is stored in the fixed buffer is the header of C's fields |
| RadiotapWriters.WriteBoth | c/mt7921_rxd.c:463-642 | the two writers' octets are equal if and only if the record is common, and each reads back |
| Pcap.PacketRoundTrip | examples/sniff_to_pcap.py:323-330 | every packet of a file gives its time, metadata and frame |
| Pcap.CaptureRoundTrip | examples/sniff_to_pcap.py:256-330 | a file of either host, header checked, reads back as the list of times, metadata and frames |
| Pcap.SameFileExactly | c/mt7921_rxd.c:426-660 | both hosts' files of one list of frames are the same if and only if every record is common |
| Pcap.OpenC | c/mt7921_rxd.c:426-460 | C's seven writes make Python's packed file header |
| Pcap.WriteFrame | c/mt7921_rxd.c:463-660 | an empty frame is refused, and any other appends the record that Python would pack |
| Pcap.CapturePython | examples/sniff_to_pcap.py:305-330 | the capture loop's file holds, and reads back as, exactly the frames of at least ten octets in order |
| Pcap.CaptureC | c/mt76_radio_probe.c:119-125 | the C loops skip empty frames, so none is refused; the file holds, and reads back as, exactly the others in order |
| Pcap.SameCaptureExactly | c/mt7921_smoke.c:745-763 | the capture loops of the hosts write the same file if and only if no frame has one to nine octets and every longer one is common |
| RateVectors.SameBits | rxd.py:1353-1376 | the shifts and masks of both hosts read the same fields of the rate words |
| RateVectors.PhysAreSiblings | c/mt7921_rxd.c:66-120 | both hosts decode the same mode, legacy rate, guard interval, coding scheme, streams, flags and offset, with at least one stream of either kind |
| RateVectors.Widths | c/mt7921_rxd_connac3.c:23-35 | the widths differ only on connac2 beyond the table: none in Python, 20 MHz in C |
| RateVectors.TonesExactly | c/mt7921_rxd.c:229-283 | the hosts report the same tones if and only if the frame is HE or EHT, at a scheme C has a rate for, not at 320 MHz, and not extended-range HE of connac3 at 80 or 160 MHz |
| RateVectors.MultiUserAlike | c/mt7921_rxd.c:229-283 | the allocation codes of multi-user HE agree if and only if the scheme is at most 11 and connac3 is not at 320 MHz |
| RateVectors.DecodedHeadersExactly | c/mt7921_rxd_connac3.c:38-89 | from the rate words to the header octets: the same if and only if frequency and signal octets are, and the fields are ones treated alike |
| Sniffer.SameVector | rxd_connac3.py:225-247 | on a record C accepts both hosts decode the same two words of group 3 |
| Sniffer.ReceivedAlike | examples/sniff_to_pcap.py:313-324 | the records handed to the writers agree in frequency if and only if the channel index is at most 244 and, if zero, 2407 MHz was asked for, and in signal if and only if it is known |
| Sniffer.PacketsExactly | c/mt7921_rxd.c:337-660 | for every transfer C accepts, both hosts write the same frame, under the same header if and only if the stated condition on the descriptor holds |

## Left out

- Elements.ParseIes: does not model the per-element summaries (SSID text, DS channel, BSS load, vendor OUIs, RSN and the other decoders), which are single-field reads of the list it proves.
- Elements.SubelementRoundTrip: is stated for complete bodies; after a truncated fragment the source walks the leftover octets again, which the walk's specification follows.
- CsiAccount.CsiSummary.Add: errors are counted by kind, not by message text, and the digest is any function of the samples.
- Delivery.DeliveryWindow.Observe: ticks and lookback are integers in a common unit, where the source's lookback may be a fraction of a tick.
- Visibility.Capture: does not model the timeouts, the subtype, mode and QoS counters or the event and beacon dicts keyed by a hash.
- Visibility.Compare: takes the events already grouped by fingerprint, and the clock line as given.
- ClockFit.FitClock: is over the reals and returns every residual; medians, percentiles, spans and rounding are not modelled.
- Aggregation.AggregationTracker.Feed: an aggregate is a value that the tracker replaces where the source appends to an object, so a caller's alias of the open aggregate is not modelled; airtime figures are not modelled beyond the gap rule.
- RxDecode.DecodePython: does not model the per-chain list, the frame-control copy, security and queue fields, which are fixed bit reads; the rate words are decoded in `RateVectors.dfy`.
- RxWriter.PythonReads: is about whole records; what Python makes of a transfer cut inside its groups is in the contract of DecodePython.
- RateVectors.PythonPhy: decodes what radiotap carries; rates other than those of the two legacy modes are not modelled.
- Download.Link.Send: stands for one command and its answer; sequence numbers and the reply wait are in `McuLink.dfy`, and framing is not modelled.
- McuLink.Mcu.WaitPython: the deadline is the end of the list of reads; verbose output is not modelled.
- McuLink.Session: a transfer that is an event is taken to answer some command already issued, by that command's number; a device that invents numbers is not modelled.
- RamImage.ParsePython: does not model version text, build date, checksum and decompression fields.
- PatchLoad.HostsAgreeExactly: is for semaphore replies of at most 64 octets; what happens beyond is LongReplyKeepsSemaphore.
- PatchLoad.LoadC: does not model the image's text and checksum fields, logging, or the release status that both hosts only report.
- G5Guard.Run: the register changes only by the guard's own writes.
- TxGate.Run: does not model the packet octets or the ungated injection path of `c/mt7921_dev.c`.
- Rendezvous.ExitMeansComplete: does not model the counter comparison that chooses between exit codes 0 and 1, nor the early exits before threads start.
- RadiotapWriters.WriteC: takes the frequency, which `Sniffer.dfy` computes from band and channel, and rates in whole units of 500 kb/s.
- Pcap.CapturePython: the loop's reads, its deadline and the clock are the list of captured frames and their times; transfers that decode to nothing are not in it.
- Command octets (descriptor words, padding) of the MCU transport, USB transfers, device discovery, register bring-up, DMA setup, firmware hashes and the remaining research probes are not modelled: they are fixed layouts or foreign calls.
- Name tables, the rate arithmetic of HT to EHT, JSON output and command-line handling are not modelled: they are finite tables, floating-point formulas and user interface.
