# The mDNS engine, modelled and proved

This project models the multicast DNS engine in `avahi-common` and `avahi-core` and proves what it is for: that packets
read back as they were written, that timers fire in order, that names are claimed only after probing, that at no time two
hosts on a link have registered the same unique record set if each registers only when its probes and the answers to them
have arrived and none is silent for half a second after its third probe, that the cache, its table and its notices always
agree, and that the traffic schedulers keep their distances. Where the code does not keep a property, a lemma gives an input or a run, and
another says exactly when the property holds.

`dafny verify dfyconfig.toml` checks everything.

| files | component |
|---|---|
| `Bytes`, `Utf8`, `Names`, `ServiceNames` | escaped domain names and service names as text, labels and normal forms |
| `Records`, `NameRelations`, `Identity`, `RecordOrder`, `WireOrder`, `TieBreak`, `Conflict` | records, equality, hashing, order, the contest between probing hosts, and conflicts with other hosts |
| `Walk`, `Wire`, `Reader`, `Message`, `WireForm`, `RoundTrip`, `LabelLimit`, `Packet` | the packet codec with name compression, and the bytes it writes |
| `PrioNodes`, `HeapOrder`, `PrioQueue`, `TimeEvents` | the linked heap and the timer queue on top of it |
| `Announce`, `EntryGroups`, `AnnounceRun`, `ProbeFirst`, `Announcements`, `Orphans`, `Registrar` | probing, announcing, entry groups, and whole runs of them |
| `ProbeSteps`, `Network`, `HalfSecond` | any number of hosts that run all of this on one link and want the same unique record set |
| `SmallWorld` | the interface and the place that the runs use which show where a property fails |
| `Lists`, `HashTable`, `CacheLife`, `Cache`, `CacheStore`, `CacheTable` | the hash table, and the cache on top of it |
| `Worklist`, `KnownAnswers`, `Scheduler`, `ProbeTiming`, `ResponseScheduler` | auxiliary records, known answers, the three schedulers, and the probes of an announcer in one of them |

What the source updates in place is a class with fields (`Packet.DnsPacket`, `PrioNodes.Node`, `PrioQueue.Queue`,
`TimeEvents.EventQueue`, `Registrar.Server`, `CacheStore.Store`, `HashTable.Table`, `CacheTable.Chained`,
`Worklist.RecordList`, `Scheduler.JobScheduler`, `ResponseScheduler.Responses`), with loops where the source loops. Every
such method is tied to a function of the old state or states its result outright; the hard properties are lemmas about those
functions or invariants that every method keeps. Where a property needs to speak of the past, the state keeps a record of it:
the probes posted since probing started, the announcements since the last start, the real commits of a group, the notices given, the jobs sent, the responses that
were sent or heard and the posts that were accepted.

Times are integers in microseconds (`TimeEvents.Add` and `TimeEvents.Diff` show that second/microsecond pairs are exact
there), the clock never goes back, jitter is any value in its range, and allocation succeeds. User callbacks are recorded
and do not call back into the engine.

## Where the code differs from what one would expect

- `avahi_timeval_add` with a negative amount that lands on a whole second leaves 1000000 microseconds
  (`TimeEvents.AddCanonical` says exactly when).
- Backward compression pointers do not bound the reader; its step counter does (`Walk.BackwardPointersMayLoop`). Each
  pointer costs a step, so exactly the names of at most 63 labels are always read back; a packet of 63 questions, each of
  which is read back, makes the writer write a 64th that the reader refuses (`LabelLimit.SixtyThreeLabels`).
- A failing `avahi_dns_packet_append_name` leaves a label and table entries behind exactly when the labels before the first
  compressible suffix fit, the pointer does not, and that suffix is not the whole name (`Wire.FailedNameIsAtomic`, with an
  input in `Wire.NameMayStayHalfWritten`); its callers cut the packet back.
- `avahi_normalize_name` does not look at the result of `avahi_escape_label`: it leaves the normal form if and only if that
  fits the buffer, and otherwise another text, one without a NUL, or none (`Names.NormalizeName`).
- The comparison of records is a total order, but not that of section 8.2 of RFC 6762: of TXT and generic data a proper prefix
  is greater, and names and HINFO strings are compared without their length bytes, so that the label "aa" comes before "b".
  `WireOrder.OrdersAgree` says exactly for which records the two orders agree, `WireOrder.OrdersMayDiffer` gives inputs.
- `avahi_utf8_valid` refuses the Unicode noncharacters, which RFC 3629 does not.
- Removing an interface does not lower the count of probing announcers of a group: the count is the number of probing
  announcers and of those lost that way (`AnnounceRun.GroupsInRuns`). A group that has lost one and is not established does not
  become established before it is reset, freed or collides (`Orphans.StaysOut`, with a run in `Orphans.MayLoseItsProbe`); one
  that is established already stays so.
- A record that has to be probed for is registered without its three probes if and only if an update found it past probing
  with none behind it and did not make it start again (`ProbeFirst.ExactlyByUpdate`). There are two ways: a registered shared
  or unprobed record is updated to a unique one (`ProbeFirst.UpdateMayClaimUnprobed`), and NO_PROBE is dropped from a waiting
  unique record without changing its data, which is then released unprobed (`ProbeFirst.WaitingMayClaimUnprobed`).
- A host whose third probe is out neither probes nor answers until it registers, be it late or waiting for the rest of its
  group. If that takes half a second, another host can register the same record set in the meantime
  (`HalfSecond.HalfASecondIsTooLate`); if it takes less, and the probes and answers of a host have arrived when it registers,
  never (`Network.AtMostOneRegistered`).
- A probe may be refused by the probe scheduler, and the announcer counts it all the same. Probes posted 250 ms apart are all
  accepted and sent as long as no timer is late by 50 ms (`ProbeTiming.ProbesGoOut`); with a timer late by just that, the next
  one is refused (`ProbeTiming.LateProbeIsRefused`).
- A response that appeared less than half a second ago does not always make an equal post needless. What the history knows of
  a response is exactly the last thing that happened to it (`ResponseScheduler.RememberedExactly`), so a post is refused if
  and only if the last appearance went to the history, nothing happened since, and the reply that was kept covers the post
  (`ResponseScheduler.CoveredAgain`). It fails in three ways: a post has been accepted since, which removes the appearance
  (`ResponseScheduler.AppearanceForgotten`); somebody else's response stood for a waiting one, and the history keeps ours
  (`ResponseScheduler.ForeignForgotten`); or it did not stand for a waiting one, and the history keeps nothing
  (`ResponseScheduler.OverheardForgotten`). A response too large to be sent is kept as if it had been, and makes the next post
  needless (`ResponseScheduler.RefusedUnsent`).
- `avahi_service_name_split` undoes `avahi_service_name_join` exactly when the name is UTF-8 and the first label of the
  domain does not begin with an underscore (`ServiceNames.SplitUndoesJoin`).

## Model

| member | source | states |
|---|---|---|
| Utf8.Utf8Valid | avahi-common/utf8.c:49-110 | the byte scan accepts exactly the texts that split into well-formed characters |
| Utf8.LongLength | avahi-common/utf8.c:71-100 | the three and four byte branch recognises exactly the well-formed long characters |
| Utf8.AcceptsExactlyEncodings | avahi-common/utf8.c:49-110 | a text is accepted if and only if it is the UTF-8 encoding of code points below 0x110000 that are neither surrogates nor noncharacters |
| Names.UnescapeLabel | avahi-common/domain.c:41-113 | reads one label by the escape grammar, refuses it when it is too long, ill-escaped or not UTF-8, and returns the rest |
| Names.EscapeLabel | avahi-common/domain.c:116-176 | writes the escaped label, and fails exactly when it and its NUL do not fit |
| Names.EscapedByNumber | avahi-common/domain.c:128-166 | which bytes stand for themselves, which get a backslash, and which become three digits |
| Names.LongestLabel | avahi-common/domain.c:41-113 | of the labels that can be in a name, exactly those of at most 63 bytes are read |
| Names.ScanEscaped | avahi-common/domain.c:41-176 | reading undoes escaping on every NUL-free label that fits, whatever follows |
| Names.LabelsOfJoin | avahi-common/domain.c:178-217 | the normal form of any good labels spells exactly those labels |
| Names.NormalizeName | avahi-common/domain.c:178-217 | on every text and buffer: the buffer holds the normal form and a NUL if and only if that fits; an unreadable name gives no text; nothing is written past the end |
| Names.NormalIsStable | avahi-common/domain.c:178-217 | normalisation is idempotent and keeps the label sequence |
| Names.NormalIsCanonical | avahi-common/domain.c:178-217 | two names have the same normal form if and only if they spell the same labels |
| Names.IsValidDomainName | avahi-common/domain.c:369-394 | a name is valid exactly when it is shorter than 1014 bytes and every label can be read and is not empty, or it is the root |
| ServiceNames.IsValidServiceType | avahi-common/domain.c:254-272 | accepts exactly the names shorter than 1014 bytes whose labels all begin with an underscore and have more than two bytes |
| ServiceNames.ServiceNameJoin | avahi-common/domain.c:440-478 | every error case, and otherwise, when type and domain fit their buffers, the escaped name, normal type and normal domain joined by dots and cut to the buffer |
| ServiceNames.ServiceNameSplit | avahi-common/domain.c:496-573 | succeeds exactly when every label can be read and type and domain fit, and then gives the three parts |
| ServiceNames.SplitUndoesJoin | avahi-common/domain.c:440-573 | splitting a joined name gives back name, normal type and normal domain if and only if the name is UTF-8 and the first label of the domain does not begin with an underscore |
| Records.RecordIsValid | avahi-core/rr.c:658-701 | decides validity of a record: valid names, string lengths and host data within their limits |
| Records.SerializedSize | avahi-common/strlst.c:168-233 | the room a string list needs is the length of its wire form |
| Records.Serialize | avahi-common/strlst.c:168-233 | a buffer large enough receives exactly the wire form |
| Records.ParseStrings | avahi-common/strlst.c:69-106 | parses exactly the well-formed wire forms |
| Records.TxtRoundTrip | avahi-common/strlst.c:69-233 | parsing undoes serialising on every valid list, the empty one included |
| Records.TxtWireInjective | avahi-common/strlst.c:168-233 | the wire form determines a valid list |
| Walk.ConsumeLabels | avahi-core/dns.c:346-420 | on every byte string, the loop ends and agrees with the step-limited decoding: text, bytes used in place, and failure |
| Walk.DecodeIffPath | avahi-core/dns.c:346-420 | decoding succeeds within the limit if and only if a path of that many steps leads over labels and backward pointers behind the header to a zero byte, and gives the labels on it |
| Walk.BackwardPointersMayLoop | avahi-core/dns.c:398-414 | a packet with one backward pointer that no number of steps decodes |
| Walk.DecodeExtends | avahi-core/dns.c:346-420 | bytes appended later do not change a name that is already there |
| Walk.HeaderIsIrrelevant | avahi-core/dns.c:346-420 | names never depend on the header bytes |
| Wire.NameLoopTable | avahi-core/dns.c:168-234 | writing a name keeps all table entries, adds only entries that point into what it writes, and stays within the packet |
| Wire.WrittenNameReadsBack | avahi-core/dns.c:168-234 | a name written after sound bytes decodes to its labels in at most two steps a label and one, and every table entry again decodes to its text |
| Wire.AppendedNameReadsBack | avahi-core/dns.c:168-234 | the table invariant over a whole append |
| Wire.CuttingBackRestoresTable | avahi-core/dns.c:156-166 | cutting the packet back to where a write began restores the table as a map, whatever the write did |
| Wire.FailedNameIsAtomic | avahi-core/dns.c:193-233 | for every table, room and name: a failed append_name leaves bytes or entries behind if and only if the labels before the first compressible suffix fit, the pointer to it does not, and it is not the whole name |
| Wire.NameMayStayHalfWritten | avahi-core/dns.c:193-201 | a concrete failure that leaves a label and an entry behind |
| Wire.NameWireBound | avahi-core/dns.c:168-234 | a name takes at most two bytes more than its text |
| Wire.NameFits | avahi-core/dns.c:168-234 | and with that much room a readable name is always written |
| Message.NameRoundTrip | avahi-core/dns.c:168-430 | a normal name just appended is read back as itself, whatever follows |
| Message.KeyRoundTrip | avahi-core/dns.c:661-708 | a key of any class and its unicast bit are read back, the top bit of the class as that bit, and the table stays good |
| Message.DataRoundTrip | avahi-core/dns.c:523-781 | the data of every record type is read back and fills its length field |
| Message.RecordRoundTrip | avahi-core/dns.c:622-821 | for every max_ttl, a record and its flush bit are read back with the TTL up to max_ttl, the class without its top bit, and 4500 for the largest TTL; the table stays good |
| RoundTrip.RunRoundTrip | avahi-core/dns.c:168-821 | any run of appends, failed ones included, is read back as the items that fitted, in order, each with what becomes of its class and TTL on the way |
| RoundTrip.CodecRoundTrip | avahi-core/dns.c:168-821 | the same from a fresh packet, whatever the header fields are set to afterwards |
| WireForm.WrittenName | avahi-core/dns.c:168-234 | the bytes of every name that is written: labels with their lengths up to the first suffix that the table has below 0x4000, then two bytes of pointer, or a zero byte |
| WireForm.FullName | avahi-core/dns.c:168-234 | without such a suffix that is the uncompressed wire form of the labels |
| WireForm.KeyBytes | avahi-core/dns.c:689-708 | the bytes of a key: its name, type and class in network byte order, 0x8000 added to the class when unicast is asked for |
| WireForm.TypedByNumber | avahi-common/defs.h:328-340 | which data goes with which type number |
| WireForm.WrittenData | avahi-core/dns.c:710-781 | the bytes of the data by type number |
| WireForm.RecordBytes | avahi-core/dns.c:784-821 | the bytes of a record: name, type, class with 0x8000 when flagged and without otherwise, TTL up to max_ttl, length, data |
| WireForm.FirstRecord | avahi-core/dns.c:784-821 | in an empty packet that is the uncompressed form of RFC 1035, unless the data has a name that ends like the record's own |
| LabelLimit.SixtyThreeLabels | avahi-core/dns.c:346-420 | in packets that the codec itself writes, a question with a name of k labels is always read back within the 127 steps if and only if k is at most 63 |
| Packet.DnsPacket.constructor | avahi-core/dns.c:39-64 | the size limit for every mtu, a zeroed header of 12 bytes and an empty table |
| Packet.DnsPacket.Put | avahi-core/dns.c:263-308 | bytes are added exactly when they fit |
| Packet.DnsPacket.CleanupNameTable | avahi-core/dns.c:156-166 | the entries that point past the end go, the others stay |
| Packet.DnsPacket.AppendName | avahi-core/dns.c:168-234 | the new bytes and table are those of the name writer, in every case |
| Packet.DnsPacket.AppendKey | avahi-core/dns.c:689-708 | all of the key or nothing, for bytes and table |
| Packet.DnsPacket.AppendData | avahi-core/dns.c:710-781 | the data that was written, and when it fails |
| Packet.DnsPacket.AppendRecord | avahi-core/dns.c:784-821 | all of the record, its length field filled in, or nothing, for bytes and table |
| Packet.DnsPacket.ConsumeName | avahi-core/dns.c:422-430 | the name and the read index of the reading function |
| Packet.DnsPacket.ConsumeString | avahi-core/dns.c:478-502 | the string and the read index of the reading function |
| Packet.DnsPacket.ConsumeKey | avahi-core/dns.c:661-687 | the key, its unicast bit and the read index of the reading function, on every packet |
| Packet.DnsPacket.ConsumeRecord | avahi-core/dns.c:622-659 | the record, its flush bit and the read index of the reading function, on every packet |
| Reader.NameLengths | avahi-core/dns.c:622-687 | a name is read exactly when its text has less than 256 bytes in a key and less than 1014 in a record |
| Packet.DnsPacket.SetField | avahi-core/dns.c:134-139 | two bytes at the index change and nothing else; of a header field, not the body |
| Packet.DnsPacket.GetField | avahi-core/dns.c:141-146 | the field in network byte order |
| NameRelations.DomainEqual | avahi-common/domain.c:229-252 | on all texts whose labels can be read: ends, and says whether, empty labels at the end aside, there are as many labels, of equal lengths, whose bytes are equal or the two cases of one ASCII letter |
| NameRelations.DomainHash | avahi-common/domain.c:424-438 | on all texts whose labels can be read: the hash of the folded labels, modulo 2^32 |
| NameRelations.SpellingOfNames | avahi-common/domain.c:229-252 | on names that is equality of the label sequences ignoring ASCII case |
| NameRelations.SameNameByLetters | avahi-common/domain.c:229-252 | the same of two names, for every use of their equality |
| NameRelations.HashOfOneMore | avahi-common/domain.c:424-438 | one byte more: 31 times the hash so far plus the byte as a signed character in lower case, modulo 2^32 |
| NameRelations.HashKey | avahi-core/rr.c:357-364 | the hash of the name plus type and class, modulo 2^32 |
| NameRelations.EqualSpellingsHashEqual | avahi-common/domain.c:229-438 | texts that are equal in this sense have equal hashes |
| NameRelations.EqualLabelsHashEqual | avahi-common/domain.c:424-438 | names equal ignoring case have equal hashes |
| NameRelations.EqualKeysHashEqual | avahi-core/rr.c:323-364 | equal keys have equal hashes |
| NameRelations.SameRecordIsEquivalence | avahi-core/rr.c:366-415 | equality ignoring TTL is an equivalence |
| Identity.SameKeySameClass | avahi-core/rr.c:323-333 | keys have the same class exactly when they are equal |
| Identity.SameRecordSameId | avahi-core/rr.c:405-415 | records have the same identity exactly when they are equal ignoring TTL |
| RecordOrder.BinaryDomainCmp | avahi-core/domain-util.c:147-169 | on all texts whose labels can be read: the sign of the label-wise comparison |
| RecordOrder.RecordCompareIsLex | avahi-core/rr.c:534-650 | the comparison is lexicographic order on flattened records, in which a proper prefix of TXT or generic data is greater |
| RecordOrder.TotalOrder | avahi-core/rr.c:555-650 | on valid records of one class and type the comparison is antisymmetric, transitive, and zero only for equal data |
| WireOrder.MemCompareAgrees | avahi-core/rr.c:534-553 | the comparison of byte strings is lexicographic order if and only if neither is a proper prefix of the other |
| WireOrder.NamesAgree | avahi-core/domain-util.c:147-169 | the comparison of names is that of their wire form if and only if the first labels that differ are in the order of their lengths |
| WireOrder.OrdersAgree | avahi-core/rr.c:555-650 | the comparison of records is that of section 8.2 of RFC 6762 if and only if class or type differ or the data is in step |
| WireOrder.OrdersMayDiffer | avahi-core/rr.c:534-650 | data and names on which the two orders are opposite |
| TieBreak.IncomingProbe | avahi-core/server.c:196-239 | withdraws exactly when the probe is not ours, beats a record we probe for, and loses to none |
| TieBreak.ExactlyOneSurvives | avahi-core/server.c:184-239 | among any finite set of hosts with pairwise different records of one key, after every pair has exchanged probes in any order and any number of times, exactly one has not withdrawn |
| Conflict.HandleGoodbye | avahi-core/server.c:257-275 | a goodbye is answered exactly when a live entry of ours is equal to it |
| Conflict.HandleRecord | avahi-core/server.c:254-336 | the first equal concerned entry decides alone; without one, a conflicting entry we probe for means withdrawal, else the last conflicting registered entry starts again, else the record is accepted |
| Conflict.HandleConflict | avahi-core/server.c:241-344 | the verdict on every record, goodbye or not |
| PrioNodes.ExchangeTree | avahi-core/prioq.c:78-205 | every left, right and parent link afterwards is the old one with the two nodes exchanged at both ends, and so is the root |
| PrioNodes.ExchangeRow | avahi-core/prioq.c:206-255 | the same for next, prev and the last node, neighbours or not |
| HeapOrder.StepUp | avahi-core/prioq.c:264-266 | one exchange with the parent moves the hole up and keeps all else in order |
| HeapOrder.StepDown | avahi-core/prioq.c:268-287 | one exchange with the smaller child moves the hole down and keeps all else in order |
| HeapOrder.RootIsMinimum | avahi-core/prioq.c:258-288 | the first element of a heap is a minimum, for any total preorder |
| PrioQueue.NodeAtXY | avahi-core/prioq.c:55-76 | following the bits of the column reaches the node at that place |
| PrioQueue.Queue.Exchange | avahi-core/prioq.c:78-255 | two nodes change places in level order: all five links, coordinates and both ends agree again, data moves with its node |
| PrioQueue.Queue.Shuffle | avahi-core/prioq.c:258-288 | after one key changed, heap order is restored on the same nodes |
| PrioQueue.Queue.Put | avahi-core/prioq.c:290-338 | the linked complete tree gains the new node at its last place and stays a heap; all other nodes keep their data |
| PrioQueue.Queue.Remove | avahi-core/prioq.c:340-387 | exactly that node leaves, and the linked complete tree stays a heap |
| PrioQueue.Queue.RootHoldsMinimum | avahi-core/prioq.c:258-288 | the root holds a minimum of the data |
| TimeEvents.Diff | avahi-common/timeval.c:49-57 | the exact difference, in either direction |
| TimeEvents.Add | avahi-common/timeval.c:59-74 | the exact sum as a point in time, for negative amounts too |
| TimeEvents.CompareIsDiff | avahi-common/timeval.c:30-57 | on canonical times the comparison has the sign of the difference |
| TimeEvents.AddCanonical | avahi-common/timeval.c:59-74 | the sum is canonical if and only if it is not negative in the microsecond field or does not land on a whole second |
| TimeEvents.AddMayLeaveAFullSecond | avahi-common/timeval.c:65-67 | a concrete sum that is not canonical |
| TimeEvents.EventQueue.ArmedForTheLeast | avahi-core/timeeventq.c:48-74 | the armed timeout is the least pending expiry, and it is off exactly when nothing is pending |
| TimeEvents.EventQueue.New | avahi-core/timeeventq.c:161-201 | the new event is pending, the others keep their times, the timeout is armed anew |
| TimeEvents.EventQueue.Free | avahi-core/timeeventq.c:203-213 | exactly that event leaves, the timeout is armed anew |
| TimeEvents.EventQueue.Update | avahi-core/timeeventq.c:215-224 | the event has its new time, the others keep theirs, the timeout is armed anew |
| TimeEvents.EventQueue.Expire | avahi-core/timeeventq.c:76-103 | a callback runs if and only if some event is due; it is due itself, none expires strictly earlier, and none of the same expiry ran less recently |
| Announce.ProbingIsCounted | avahi-core/announce.c:122-128 | the group of a probing announcer counts it, so the decrement never underflows |
| Announce.PutKeeps | avahi-core/announce.c:198-229 | changing one announcer and the count of its group together keeps the invariant |
| Announce.LaunchKeeps | avahi-core/announce.c:198-260 | starting or restarting an announcer keeps the invariant |
| Announce.ReannounceKeeps | avahi-core/announce.c:417-467 | so does announcing again |
| Announce.CheckProbedKeeps | avahi-core/announce.c:71-109 | so does releasing the waiting announcers of a probed group |
| Announce.NextStateKeeps | avahi-core/announce.c:111-176 | so does the timer of an announcer, in every state |
| EntryGroups.CommitGroupKeeps | avahi-core/entry.c:1139-1174 | so does a commit, at once or held off |
| EntryGroups.RegisterElapsedKeeps | avahi-core/entry.c:1128-1137 | so does the end of the hold-off |
| EntryGroups.ResetGroupKeeps | avahi-core/entry.c:1176-1193 | so does a reset, and a collision |
| EntryGroups.FreeGroupKeeps | avahi-core/entry.c:1088-1112 | so does freeing a group |
| EntryGroups.WithdrawKeeps | avahi-core/server.c:154-182 | so does withdrawing an entry, with or without a group |
| EntryGroups.InterfaceUpKeeps | avahi-core/announce.c:262-274 | so does a new interface |
| EntryGroups.InterfaceDownKeeps | avahi-core/announce.c:494-510 | so does a removed interface, whose probing announcers stay counted |
| EntryGroups.AddEntryKeeps | avahi-core/entry.c:274-311 | so does a new entry |
| EntryGroups.UpdateEntryKeeps | avahi-core/entry.c:232-273 | so does an update |
| EntryGroups.CleanupKeeps | avahi-core/entry.c:113-149 | so does the removal of dead entries and groups |
| AnnounceRun.InvariantOfRuns | avahi-core/announce.c:71-523 | the invariant holds after every run of requests, timers, conflicts and interface changes |
| AnnounceRun.GroupsInRuns | avahi-core/entry.c:1010-1193 | in every run, the count of a live group is exact, waiting announcers belong to groups being registered, real commits are 1 s apart and 20 s from the fifteenth try on, and a pending register timer means REGISTERING |
| Announcements.AnnouncedInRuns | avahi-core/announce.c:153-176 | in every run, an announcer that has settled through announcing has said exactly three announcements since it started, at least 1 and 2 s apart, or four, at least 1, 2 and 4 s apart, when it was released with a delay; before that it has said fewer and is due at most 250 ms after that distance; it says nothing while it probes or waits |
| Announcements.TimerSays | avahi-core/announce.c:153-176 | each timer of an announcing announcer is one announcement, and changes nothing else |
| Announcements.ReleaseSays | avahi-core/announce.c:71-109 | the first announcement of a waiting announcer comes at once when its group was probed, and within 250 ms when it was just committed |
| Announcements.ProbedInRuns | avahi-core/announce.c:131-146 | in every run, at most three probes, at least 250 ms apart, and the next step due exactly 250 ms after the last |
| Announcements.StartsSoon | avahi-core/announce.c:198-229 | what starts to probe or to announce does so within 250 ms |
| AnnounceRun.EstablishedMeansProbed | avahi-core/announce.c:71-109 | in every run, at the step where a group becomes established none of its announcers is probing or was lost while probing |
| Orphans.ApplyKeepsOrphans | avahi-core/announce.c:494-510 | no event but reset, freeing and collision makes a group forget the announcers it lost while they were probing |
| Orphans.StaysOut | avahi-core/announce.c:71-109 | in every run, a group that has lost a probing announcer and is not established does not become established until it is reset, freed or collides |
| Orphans.MayLoseItsProbe | avahi-core/announce.c:494-510 | a run in which a group loses its only probing announcer and is stuck in REGISTERING |
| ProbeFirst.UpdateHarms | avahi-core/entry.c:232-273 | after an update, a record that has to be probed for is unprobed if and only if the update found it past probing with no probes behind it and did not make it start again |
| ProbeFirst.ExactlyByUpdate | avahi-core/announce.c:71-523 | in every run, a record becomes unprobed at a step if and only if that step is such an update |
| ProbeFirst.SomeUpdateHarmed | avahi-core/announce.c:71-523 | in every run that ends with an unprobed record there was such an update |
| ProbeFirst.ProbeBeforeClaim | avahi-core/announce.c:111-337 | in every run, a registered record that has to be probed for has exactly three probes behind it, 250 ms apart, the first 750 ms ago, if and only if it is not unprobed |
| ProbeFirst.ClaimedOnlyProbed | avahi-core/announce.c:111-337 | so in every run without such an update a unique record is registered only after its three probes |
| ProbeFirst.ReleasedUnprobed | avahi-core/announce.c:71-109 | an unprobed record that waits for its group is registered as it is when the group is probed |
| ProbeFirst.UpdateMayClaimUnprobed | avahi-core/entry.c:251-266 | a run in which an update registers a unique record without a probe |
| ProbeFirst.WaitingMayClaimUnprobed | avahi-core/announce.c:71-109 | a run in which an update drops NO_PROBE from a record that waits for its group, and it is registered without a probe |
| ProbeSteps.EventQuiet | avahi-core/announce.c:71-523 | whatever the event, unless it posts a probe for a record, that record begins to probe without probes, keeps its probes, or passes probing with three of them |
| ProbeSteps.StepMoves | avahi-core/announce.c:111-176 | seen from one record: a step adds a probe to fewer than three, changes nothing, gives up, starts again, or registers after three probes |
| Network.AnswerIsJudged | avahi-core/server.c:241-344 | what a host does on hearing an answer is the verdict of handle_conflict |
| Network.HearProbeView | avahi-core/server.c:184-239 | a probe makes a host give up if and only if it probes for a smaller record of the same key, and changes nothing otherwise |
| Network.HearAnswerView | avahi-core/server.c:241-344 | an answer for the same key makes a probing host give up and one that has registered probe again, and one for another key changes nothing |
| Network.RunKeeps | avahi-core/server.c:184-344 | all pairs of hosts stay apart in every run of the link: own steps, probes and answers in any order |
| Network.AtMostOneRegistered | avahi-core/server.c:184-344 | however many hosts want different records of one key: if each registers only when its probes and the answers to them have arrived, and less than half a second after its third probe, no two have it registered at any time |
| HalfSecond.HalfASecondIsTooLate | avahi-core/announce.c:131-160 | a run in which all probes are heard, one host is silent for exactly half a second, and two hosts register |
| Registrar.Server.AnnounceEntries | avahi-core/announce.c:287-304 | the live entries of a group, on every interface |
| Registrar.Server.AddInterface | avahi-core/announce.c:262-274 | every live entry on the new interface |
| Registrar.Server.RemoveInterface | avahi-core/announce.c:494-510 | exactly the announcers of the interface go |
| Registrar.Server.CheckGroupProbed | avahi-core/announce.c:71-109 | the waiting announcers of a probed group, and no others, start announcing |
| Registrar.Server.ReannounceEntry | avahi-core/announce.c:417-492 | all announcers of the entry start again as their state and flags demand |
| Registrar.Server.GroupIsEmpty | avahi-core/entry.c:1223-1233 | a group is empty exactly when all its entries are dead |
| Registrar.Server.CommitRequest | avahi-core/entry.c:1139-1174 | refused exactly when the group is committed or empty, otherwise committed now or held off; the invariant |
| Registrar.Server.ResetEntries | avahi-core/entry.c:1176-1193 | all entries of the group are dead, their announcers gone, the count zero; the invariant |
| Registrar.Server.FreeEntries | avahi-core/entry.c:1088-1112 | the same, and the group is dead; the invariant |
| Registrar.Server.ChangeGroupState | avahi-core/entry.c:1010-1043 | the tries start anew after five seconds of being established, the register timer goes, and the time of being established is kept |
| Registrar.Server.CleanUp | avahi-core/entry.c:113-149 | exactly the dead groups and entries go; the invariant |
| HashTable.Table.EntryGet | avahi-core/hashmap.c:55-66 | searching one bucket finds the item of an equal key if there is one in the table |
| HashTable.Table.Lookup | avahi-core/hashmap.c:114-123 | the value of the class of the key |
| HashTable.Table.Insert | avahi-core/hashmap.c:125-153 | changes the value of one class, or nothing when it had one |
| HashTable.Table.Replace | avahi-core/hashmap.c:156-187 | changes the value of one class, and stores the given key |
| HashTable.Table.Remove | avahi-core/hashmap.c:189-198 | the item of an equal key leaves, if there is one, and no other; all other classes keep their values |
| HashTable.GetStored | avahi-core/hashmap.c:125-187 | storing under a key changes what is found for equal keys and for no others |
| HashTable.KeysFit | avahi-core/rr.c:323-364 | the equality and hash of keys meet what the table asks for |
| CacheLife.FifthTimerRemoves | avahi-core/cache.c:166-274 | whatever happens to an entry short of a refresh, its fifth timer removes it at the latest |
| CacheLife.JitterOfRandom | avahi-core/cache.c:246-256 | the random part of a planned time, last out of range, stays below two percent of the time to live |
| CacheLife.RandomOfJitter | avahi-core/cache.c:246-256 | every value below two percent comes about for some last and range |
| CacheLife.NextLook | avahi-core/cache.c:166-259 | an entry is looked at again at 80 percent of its time to live after a refresh and then at 85, 90, 95 and 100 percent, the jitter later |
| CacheLife.Schedule | avahi-core/cache.c:166-264 | left alone, an entry is looked at 80, 85, 90, 95 and 100 percent into its TTL, each less than two percent late |
| CacheLife.PlannedTimesIncrease | avahi-core/cache.c:166-264 | each planned time lies strictly after the one before |
| CacheLife.PoofTakesFourSeconds | avahi-core/cache.c:442-485 | POOF_FINAL means five counted queries a second apart, four seconds from first to last |
| CacheLife.GoneInOneSecond | avahi-core/cache.c:266-274 | after a goodbye, a replacement or the fifth counted query at time t, the entry is planned to go at t + 1 s whatever queries and answers follow, an answer after the query apart, and the next timer removes it |
| CacheLife.QueryCounts | avahi-core/cache.c:442-485 | which queries count, from whom, and that only the fifth changes the planned time |
| CacheLife.AnswerRevives | avahi-core/cache.c:494-513 | an answer from the address that was asked plans the entry for 80 to 82 percent of its TTL again, any other changes nothing |
| CacheLife.RunKeeps | avahi-core/cache.c:166-513 | the life invariant over any run of timers, goodbyes, flushes, queries and answers |
| Cache.ChangedKeeps | avahi-core/cache.c:321-370 | refreshing an entry keeps list, chains, table keys, notices and count in agreement |
| Cache.InsertedKeeps | avahi-core/cache.c:344-370 | so does a new entry |
| Cache.RemovedKeeps | avahi-core/cache.c:35-65 | so does a removal |
| Cache.FlushedKeeps | avahi-core/cache.c:300-312 | so does the flush of older entries of a key |
| Cache.FlushedByKey | avahi-core/cache.c:300-312 | exactly the entries of the key that are older than a second go a second from now, the others stay as they are |
| Cache.MatchesByNumber | avahi-core/rr.c:335-355 | which keys a pattern matches, with 255 for any type or class |
| Cache.ChainIsMatches | avahi-core/cache.c:114-144 | the chain of a key holds exactly the cached entries that match it |
| Cache.NewsAreSeparated | avahi-core/cache.c:35-363 | between two NEW notices for a record lies a REMOVE notice |
| CacheStore.Store.RemoveEntry | avahi-core/cache.c:35-65 | exactly that entry leaves all structures, with one REMOVE notice; the agreement |
| CacheStore.Store.LookupRecord | avahi-core/cache.c:146-162 | finds an entry exactly when an equal record is cached |
| CacheStore.Store.Elapse | avahi-core/cache.c:166-224 | the entry moves on to its next look, or is removed; the agreement |
| CacheStore.Store.Update | avahi-core/cache.c:276-374 | goodbye, which leaves the entry one second, refresh, insertion or refusal for lack of room, the flush of older entries, and nothing else; the agreement |
| CacheStore.Store.Learn | avahi-core/cache.c:315-371 | the record is cached and valid if and only if it was cached or there was room; one NEW notice exactly when it is new |
| CacheStore.Store.Flush | avahi-core/cache.c:433-438 | all structures are empty; the agreement |
| CacheStore.Store.StartPoof | avahi-core/cache.c:442-492 | exactly the matching entries are counted, by chain or by list; the agreement |
| CacheStore.Store.StopPoof | avahi-core/cache.c:494-513 | only the equal record, and only for the same address, becomes valid again; the agreement |
| CacheTable.Chained.Lookup | avahi-core/cache.c:105-112 | in the hash table, the chain found for a key is that of its class |
| CacheTable.Chained.Replace | avahi-core/cache.c:353-355 | storing a chain in the hash table is storing it under the class of the key |
| CacheTable.Chained.Remove | avahi-core/cache.c:41-49 | removing a key from the hash table removes its class and no other |
| Worklist.RecordList.Push | avahi-core/rrlist.c:122-162 | a record is added unless an equal one is in either list |
| Worklist.RecordList.Next | avahi-core/rrlist.c:97-120 | the first unread record moves to the read list |
| Worklist.EnumAux | avahi-core/server.c:54-83 | adds exactly the registered records of that name and type |
| Worklist.AppendAux | avahi-core/server.c:85-103 | adds exactly the registered records the given one refers to |
| Worklist.RefersByNumber | avahi-core/server.c:54-103 | in class 1 a CNAME refers to every record of its target, a PTR to the SRV and TXT records, an SRV to the A and AAAA records, and nothing else to anything |
| Worklist.Respond | avahi-core/server.c:363-389 | the loop ends and considers each record once: exactly the least set that holds the initial records and whatever its members refer to |
| KnownAnswers.MakeRoom | avahi-core/query-sched.c:239-258 | the inner loop sends full packets until the record fits or the packet is empty, and loses nothing |
| KnownAnswers.AppendKnownAnswersAndSend | avahi-core/query-sched.c:228-271 | the sent packets carry the known answers in order, each once, except those that do not fit an empty packet; each ANCOUNT is right and all but the last have TC |
| KnownAnswers.LaterPackets | avahi-core/query-sched.c:256-257 | every packet after the first begins with twelve zero bytes, the header of a query, and carries nothing before its answers |
| KnownAnswers.SentIsReadBack | avahi-core/query-sched.c:228-311 | every packet sent is read back as its questions followed by exactly the answers it counts |
| Scheduler.MayBeSent | avahi-core/query-sched.c:136-149 | a waiting job may be sent without breaking the distance between equal sends |
| Scheduler.GuardedFewer | avahi-core/query-sched.c:329-352 | a job that leaves the history after its window leaves no recent send unremembered |
| Scheduler.NewQueryScheduler | avahi-core/query-sched.c:31-169 | the window and the delay of queries, 100 ms each |
| Scheduler.NewProbeScheduler | avahi-core/probe-sched.c:34-147 | the window of probes, 150 ms, and their delay, 50 ms |
| Scheduler.JobScheduler.Send | avahi-core/query-sched.c:212-226 | a job that is sent goes to the history for the whole window, and the same question was not sent within the window before |
| Scheduler.JobScheduler.Post | avahi-core/query-sched.c:354-391 | refused exactly while the history holds a recent job for the question; otherwise exactly one job for it waits, no later than asked for, and all other jobs are untouched; uniqueness and distance kept |
| Scheduler.JobScheduler.Incoming | avahi-core/query-sched.c:393-416 | the question is in the history with a full window from now on, no longer waits, and no other job, waiting or past, is touched |
| Scheduler.JobScheduler.ElapseQuery | avahi-core/query-sched.c:273-311 | the due job, then jobs from the head of the list are sent, as many as fit; uniqueness and distance kept |
| Scheduler.JobScheduler.ElapseLargeProbe | avahi-core/probe-sched.c:239-279 | a due job too large for a packet with others is sent alone or not at all, and done in either case; no other job is touched |
| Scheduler.JobScheduler.ElapseProbe | avahi-core/probe-sched.c:223-325 | the chosen jobs, the due one among them, are sent in list order until the packet is full, the others stay in order; uniqueness and distance kept |
| Scheduler.JobScheduler.FindHistory | avahi-core/probe-sched.c:343-366 | an outdated job is removed, a recent one is found |
| Scheduler.JobScheduler.WithdrawById | avahi-core/query-sched.c:418-450 | jobs of that id lose a poster, up to the first that has none left, which goes; no other job is touched |
| ProbeTiming.OneProbe | avahi-core/probe-sched.c:368-403 | a probe whose record was last sent more than 150 ms ago is accepted, and sent when its timer elapses, whatever else is posted in between |
| ProbeTiming.ProbesGoOut | avahi-core/announce.c:131-145 | any number of probes posted 250 ms apart are all accepted and all sent, as long as no timer is late by 50 ms |
| ProbeTiming.LateProbeIsRefused | avahi-core/probe-sched.c:376-377 | with a timer that is late by just 50 ms the next probe is refused |
| ResponseScheduler.Responses.Post | avahi-core/response-sched.c:347-427 | refused if and only if the history holds a response at most 500 ms old that covers it, or the querier said at most 700 ms ago that it has it; otherwise it waits, and the history forgets that response and no other |
| ResponseScheduler.Responses.KnownByQuerier | avahi-core/response-sched.c:361-371 | the querier has the record already, decided on what it said in the last 700 ms |
| ResponseScheduler.Responses.SeenBefore | avahi-core/response-sched.c:373-383 | a response that covers it appeared in the last 500 ms as far as the history remembers |
| ResponseScheduler.CoversByNumber | avahi-core/response-sched.c:373-383 | which response that was seen makes a post needless, by TTLs and flags |
| ResponseScheduler.Responses.Schedule | avahi-core/response-sched.c:385-426 | a waiting response is brought forward and takes the new record, or a new one waits; no other is touched |
| ResponseScheduler.Responses.Incoming | avahi-core/response-sched.c:429-465 | a foreign response replaces a waiting one exactly when it covers it, and then the history keeps ours; it changes nothing when it does not; and it is remembered when none waits |
| ResponseScheduler.Responses.SuppressKnown | avahi-core/response-sched.c:467-503 | a waiting response goes exactly when its querier has the answer, which is remembered with the new record for 700 ms |
| ResponseScheduler.Responses.MarkDone | avahi-core/response-sched.c:138-152 | a waiting response moves to the history for 500 ms |
| ResponseScheduler.Responses.Send | avahi-core/response-sched.c:200-215 | the records it refers to are posted first, each refused or accepted, then it is in the history and no longer waits; no other response waits or goes |
| ResponseScheduler.Responses.SendPacket | avahi-core/response-sched.c:217-263 | a packet holds the job and as many more as fit, or it alone in a larger packet; a job too large for any is done without being sent |
| ResponseScheduler.RememberedExactly | avahi-core/response-sched.c:347-465 | whatever has happened, the history holds a response if and only if the last thing that happened to it went there, at least for half a second, and then with the reply that was kept and its time |
| ResponseScheduler.DecidedByTheLast | avahi-core/response-sched.c:361-383 | so a post is taken for needless if and only if the last thing that happened to its response went to the history and the reply kept then covers it |
| ResponseScheduler.CoveredAgain | avahi-core/response-sched.c:361-383 | for every last appearance less than half a second ago, a post is taken for needless if and only if that appearance went to the history, nothing has happened since, and the kept reply covers the post, or a later one too large to be sent does |
| ResponseScheduler.AppearanceForgotten | avahi-core/response-sched.c:347-503 | for every record, a history in which it is sent at time 0 and accepted again 20 ms later although what was sent covers it |
| ResponseScheduler.ForeignForgotten | avahi-core/response-sched.c:437-449 | for every record, a history in which a foreign response covers a post that is accepted with none accepted in between |
| ResponseScheduler.OverheardForgotten | avahi-core/response-sched.c:437-449 | for every record, a history in which a foreign response that does not stand for a waiting one is forgotten at once |
| ResponseScheduler.RefusedUnsent | avahi-core/response-sched.c:251-257 | for every record, a history in which a post is refused although nothing was sent or heard |
| ResponseScheduler.HalfTheTtlIsTooLittle | avahi-core/response-sched.c:373-383 | for all records of one identity, a history in which a sent response does not stop a post of more than twice its TTL |

## Left out

- ServiceNames.ServiceNameJoin: says nothing about the text when the normal form of type or domain does not fit 1014 bytes, because it is then put together from what the buffers happen to hold, or when the buffer has no byte at all.
- NameRelations.DomainEqual: asks for texts whose labels can be read, as the assertions of the source do; so do hashing and comparison. Keys and records are compared on names, which have no empty labels.
- Network.AtMostOneRegistered: the records of the hosts do not change, a posted probe is taken to be sent, which `ProbeTiming.ProbesGoOut` shows for timers less than 50 ms late, a probe that finds a record registered is taken to be answered, although the response scheduler may refuse to within half a second of an equal response, and announcements are not needed and not modelled.
- Packet.DnsPacket.AppendRecord: data of more than 65535 bytes, which the source asserts away, is modelled by the length modulo 65536.
- RoundTrip.CodecRoundTrip: for normal names of at most 63 labels and key names under 256 bytes of text, as the code changes or refuses others.
- PrioQueue.Queue.Put: coordinates and counts are unbounded integers; `root` and `last` are fields of a small object the queue owns.
- TimeEvents.EventQueue.Expire: the callback does not use the queue while it runs; an event is identified with its heap node.
- Registrar.Server.Add: the checks of the arguments and check_record_conflict, the search for an equal record of another entry, come before what is modelled.
- Registrar.Server.Update: is given the entry that the search by key, group, interface and protocol finds, and whether its record differs.
- Registrar.Server.RemoveInterface: also writes the record of lost announcers, which is not in the source.
- Scheduler.JobScheduler.ElapseQuery: how many jobs a packet has room for is a parameter, and for probes also which jobs were chosen; the estimates of sizes are not modelled.
- ResponseScheduler.Responses.Send: which records are referred to is a parameter here, and so is for `ResponseScheduler.Responses.SendPacket` how much fits; `Worklist.AppendAux` computes the former.
- withdraw_rrset and the dispatch of packets: `TieBreak` and `Conflict` give the verdicts, their consequences appear in `AnnounceRun` as the events that challenge or withdraw an entry, and `Network` joins the two for hosts with one entry of the key.
- Goodbye packets on withdrawal and removal, and the announcements themselves: sending has no effect on the state modelled.
- The flags that ask for a cleanup of dead entries: the cleanup removes all dead entries and groups.
- The reply packet of the legacy-unicast loop: which considered records fit it is not modelled beyond the atomic append.
- The estimates of record and key sizes (avahi-core/rr.c:488-532) and the reserved space of packets.
- avahi_rdata_parse and avahi_rdata_serialize, avahi_string_list_reverse and avahi_string_list_equal, avahi_record_list_drop and avahi_record_list_flush, avahi_hashmap_foreach: easy members that nothing here needs.
- Reference counts, memory, out-of-memory paths, logging and `*_to_string` functions.
- Sockets, interfaces and polling of the operating system, the reflector, browsers, resolvers, wide-area lookups, host name registration, and the Qt, Bonjour, Android and Java wrappers.
