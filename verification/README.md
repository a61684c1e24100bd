# Verified model of the camera's Python networking code

This project models, in Dafny, the parts of the vendored Python code in this repository that carry a protocol or keep
an invariant: the multicast DNS stack `zeroconf`, and two small pieces of Flask. `dafny verify dfyconfig.toml` checks
everything.

**DNS wire format.** `WireWriter` says what `DNSOutgoing` appends for one question or record, from the size of the
packet and its name table; `Packets` says how queued items are spread over packets. `Outgoing` is the class itself,
which appends chunks, patches lengths and rolls back; it refines these functions. `WireReader` and `NameDecoder` say
what a received packet means, with a name decoder that has no cache; `Incoming` is the class with the cache, which
refines them. `WireMeaning`, `ItemRoundTrip`, `DraftMeaning` and `WireRoundTrip` build up to the round trip of whole
messages, and `Exchange` runs it over the two classes, field by field. `ReaderLaws` and `WriterLaws` say what single
bytes mean, for any packet; `SkippedRecords` adds records the reader cannot use. `LabelLimits` shows exactly which
names survive the round trip, `PacketHeaders` what the headers say, `LonePackets` which packets are above the typical
size, and `FullPackets` when an item is left for a later packet. `NsecBitmap` is the bitmap of section 4.1.2 of RFC
4034.

**Query packing.** `QueryPacking` is the first-fit packing of PTR questions with their known answers, on buckets that
are updated in place; `QuerySize` shows that its size estimates are bounds, and when they are exact.

**Record cache.** `HeapQueue` is `heapq` with ties left open. `CacheState` describes the cache as one flat map and a
multiset of pending expirations; `Cache` is the class with two indexes, an expiry map and a lazily cleaned heap, whose
methods are each proved to act like the flat description. `Responses` is the effect of one response on the flat
cache, `RecordManager` the class that has this effect. `CacheRuns` has the theorems about whole runs.

**Timed queues.** `Scheduler` is the query scheduler with lazy cancellation. `MulticastState` is the aggregation of
answers as a state machine with a clock, `MulticastQueue` the queue of objects that refines it. `Listener` puts
truncated queries together again.

**Smaller pieces.** `TxtProperties` (section 6 of RFC 6763), `TaggedJson`, and the context stack in `Contexts` and
`ContextStack`.

Names are held as the bytes of their text, with "." between labels; times are exact numbers of milliseconds. Random
delays, clock readings and what user code raises are parameters. Where the source raises an exception, the model
returns a `Result` or an `Outcome` that names it.

## Where the code differs from its documentation

- `packets()` says that only a single answer may exceed the typical size; a single question, authority or additional
  record may do so as well, exactly if it needs more by itself (`LonePackets.OversizedExactly`, with
  `LonePackets.OversizedQuestion` as an example). `LonePackets.DocumentedLimit` says when the documented limit holds.
- `write_character_string` accepts 256 bytes in its check, but no length byte can hold that; the model has the
  exception that follows.
- `write_name` accepts every name without a label above 64 bytes, but only those that end in a dot, have at most 253
  bytes and labels of 1 to 63 bytes are read back (`LabelLimits.LabelLimitExact`); the root name, for instance, is
  written as two bytes (`LabelLimits.RootMisread`).
- `max_size` is described as the maximum size of a question; a name that does not end in a dot takes one byte more
  (`QuerySize.QuestionEstimateExact`).
- `async_expire` purges expired entries, except that it raises when a due record stands in the heap twice, which
  happens when a record gets back an expiry it had before, and only then (`CacheRuns.RegainedExpiryFails`,
  `CacheRuns.AddFailsExactly`, `CacheRuns.FlushFailsExactly`).
- A group of answers has a latest time to be sent, counted from the arrival of the query; the timer counts from when the
  answers are added. For a query put together from truncated packets the second is later. A group may then leave after
  its latest time, by at most that lag (`MulticastState.FireInTime`), and it does in some run for every lag but 0
  (`MulticastState.LateExactly`).
- The round trip of tagged JSON needs that no key with "__" added is again a key (`TaggedJson.RoundTripExact`); the
  default tags meet this, `register` does not check it.

## Model

| member | source | states |
|---|---|---|
| WireRoundTrip.RoundTrip | SOURCE/src/modules/python/zeroconf/src/zeroconf/_protocol/outgoing.py:261-351 | Main theorem of the wire format: for well-formed items that each fit a packet of their own, `packets()` succeeds, every packet is read without error, and splitting the messages by their header counts gives back the four queued sections, in order, with the same names, types, classes (the unique bit when multicast), TTLs and payloads |
| Exchange.Exchange | SOURCE/src/modules/python/zeroconf/src/zeroconf/_protocol/outgoing.py:415-510 | The round trip over both classes, in their fields: for questions, answers, authorities and additionals that are well formed and each fit alone, the messages read, split by their header counts, give back `questions`, `answers` (each with the TTL left at its time), `authorities` and `additionals` (with their full TTL), each in order and field by field |
| Exchange.Receive | SOURCE/src/modules/python/zeroconf/src/zeroconf/_protocol/incoming.py:194-206 | A packet that the functions read as valid and complete is seen just so through the class |
| WireRoundTrip.PacketReads | SOURCE/src/modules/python/zeroconf/src/zeroconf/_protocol/incoming.py:175-181 | A packet that carries the encoding of some items is read as exactly those items, all of them, and is valid |
| WireRoundTrip.PlanEncodes | SOURCE/src/modules/python/zeroconf/src/zeroconf/_protocol/outgoing.py:415-510 | Every packet of the plan carries the encodings of the items it takes, name pointers included |
| ItemRoundTrip.QuestionReads | SOURCE/src/modules/python/zeroconf/src/zeroconf/_protocol/incoming.py:242-257 | What `_write_question` leaves in a packet is read back as the same question |
| ItemRoundTrip.RecordReads | SOURCE/src/modules/python/zeroconf/src/zeroconf/_protocol/incoming.py:273-307 | What `_write_record` leaves in a packet is read back as the same record, with the TTL that was written and the payload as the reader sees it |
| ItemRoundTrip.RDataReads | SOURCE/src/modules/python/zeroconf/src/zeroconf/_protocol/incoming.py:309-387 | The payload of each of the eight record types is read back from its encoding |
| ItemRoundTrip.NameEndDecodes | SOURCE/src/modules/python/zeroconf/src/zeroconf/_protocol/incoming.py:421-469 | Bytes that spell a name through decreasing pointers are decoded to exactly its labels, and decoding stops where the name ends |
| Records.SameIdentity | SOURCE/src/modules/python/zeroconf/src/zeroconf/_dns.py:513-521 | Two records count as the same exactly when names agree up to the case of ASCII letters, type and class are equal, and so are the payloads: aliases and servers up to case, priority, weight, port and everything else exactly |
| ReaderLaws.HeaderBytes | SOURCE/src/modules/python/zeroconf/src/zeroconf/_protocol/incoming.py:229-240 | The six header fields are big-endian, and 0 where the packet is too short |
| ReaderLaws.QuestionBytes | SOURCE/src/modules/python/zeroconf/src/zeroconf/_protocol/incoming.py:246-257 | Type and class of a question, byte by byte, with the unicast bit on top of the class |
| ReaderLaws.HeadBytes | SOURCE/src/modules/python/zeroconf/src/zeroconf/_protocol/incoming.py:279-290 | Type, class, TTL and length of a record, byte by byte |
| ReaderLaws.PlainTurns | SOURCE/src/modules/python/zeroconf/src/zeroconf/_protocol/incoming.py:309-387 | What is read of addresses, texts and strings, and where reading goes on: behind 4 or 16 bytes, the stated length, or the strings |
| ReaderLaws.NameTurns | SOURCE/src/modules/python/zeroconf/src/zeroconf/_protocol/incoming.py:309-387 | What is read of pointers, services and NSEC records, and where reading goes on: behind the name or the bitmap |
| ReaderLaws.UnknownSkipped | SOURCE/src/modules/python/zeroconf/src/zeroconf/_protocol/incoming.py:383-387 | A record of any other type adds nothing, and reading goes on at exactly its stated length behind its fixed fields |
| ReaderLaws.FailedSkipped | SOURCE/src/modules/python/zeroconf/src/zeroconf/_protocol/incoming.py:291-307 | The same of a record whose payload does not decode |
| SkippedRecords.AliensSkipped | SOURCE/src/modules/python/zeroconf/src/zeroconf/_protocol/incoming.py:273-307 | A packet of encoded items with such records anywhere between them is valid and is read as just the items |
| ReaderLaws.WindowRead | SOURCE/src/modules/python/zeroconf/src/zeroconf/_protocol/incoming.py:389-405 | An NSEC bitmap is read window by window: the types marked in a window, in increasing order, and then the rest |
| ReaderLaws.NameBytes | SOURCE/src/modules/python/zeroconf/src/zeroconf/_protocol/incoming.py:421-469 | A name byte by byte: 0 ends it, 1 to 63 is a label, 192 and more a pointer to what stands there, anything else an error |
| ReaderLaws.NameText | SOURCE/src/modules/python/zeroconf/src/zeroconf/_protocol/incoming.py:407-419 | The text of a name: each label with a dot behind it, at most 253 bytes |
| ReaderLaws.RunIs | SOURCE/src/modules/python/zeroconf/src/zeroconf/_protocol/incoming.py:273-307 | Reading records visits one offset after the other, keeps what it found, and is incomplete exactly if a name or its fixed fields cannot be read |
| ReaderLaws.ValidExactly | SOURCE/src/modules/python/zeroconf/src/zeroconf/_protocol/incoming.py:175-181 | A message is valid exactly if its header is whole, its questions can be read and, when there are none, its records |
| ReaderLaws.MessageParts | SOURCE/src/modules/python/zeroconf/src/zeroconf/_protocol/incoming.py:175-181 | Header fields, questions and records of a message, from the bytes |
| WriterLaws.QuestionLayout | SOURCE/src/modules/python/zeroconf/src/zeroconf/_protocol/outgoing.py:310-317 | The bytes of a question behind its name |
| WriterLaws.RecordLayout | SOURCE/src/modules/python/zeroconf/src/zeroconf/_protocol/outgoing.py:331-351 | The bytes of a record: type, class, TTL, length and payload behind its name |
| WriterLaws.SecondsAre | SOURCE/src/modules/python/zeroconf/src/zeroconf/_protocol/outgoing.py:327-329 | The TTL on the wire: the full one for a zero time, otherwise the whole seconds left, never negative |
| WriterLaws.PlainPayload | SOURCE/src/modules/python/zeroconf/src/zeroconf/_dns.py:280-282 | The bytes of addresses, texts and host information |
| WriterLaws.NamePayload | SOURCE/src/modules/python/zeroconf/src/zeroconf/_dns.py:502-507 | The bytes of pointers, services and NSEC records |
| WriterLaws.BitmapBits | SOURCE/src/modules/python/zeroconf/src/zeroconf/_dns.py:564-582 | A bit of the NSEC bitmap is set exactly for a listed type, the most significant first |
| WriterLaws.NameLayout | SOURCE/src/modules/python/zeroconf/src/zeroconf/_protocol/outgoing.py:261-302 | A name label by label: a known suffix becomes a pointer, the rest is spelled out and entered at its place |
| WriterLaws.DotOptional | SOURCE/src/modules/python/zeroconf/src/zeroconf/_protocol/outgoing.py:273-275 | A final dot makes no difference |
| WriterLaws.PayloadErrors | SOURCE/src/modules/python/zeroconf/src/zeroconf/_protocol/outgoing.py:243-259 | Which labels, strings and type lists cannot be written, and with which exception |
| WriterLaws.RecordErrors | SOURCE/src/modules/python/zeroconf/src/zeroconf/_protocol/outgoing.py:331-351 | When writing a record fails, and with which exception |
| WireWriter.NameTextOutMeaning | SOURCE/src/modules/python/zeroconf/src/zeroconf/_protocol/outgoing.py:261-302 | Writing a name keeps the table invariant (every entry is the offset of bytes that spell its name through strictly decreasing pointers, between 12 and 16383) and appends bytes that spell the name |
| WireWriter.NameOutMeaning | SOURCE/src/modules/python/zeroconf/src/zeroconf/_protocol/outgoing.py:282-302 | The same for the suffixes of a name while it is being written, with its unfinished entries in the table |
| WireMeaning.ItemMeaning | SOURCE/src/modules/python/zeroconf/src/zeroconf/_protocol/outgoing.py:310-351 | Writing any well-formed question or record succeeds, keeps the table invariant and appends an encoding of the item |
| DraftMeaning.TryWriteMeaning | SOURCE/src/modules/python/zeroconf/src/zeroconf/_protocol/outgoing.py:353-374 | A tentative write either appends the item's encoding or leaves the packet as it was; the size, the table and all earlier encodings stay right both ways |
| DraftMeaning.FillMeaning | SOURCE/src/modules/python/zeroconf/src/zeroconf/_protocol/outgoing.py:376-398 | After all four section loops the packet spells exactly the items the loops counted, in order |
| WireWriter.RollbackExact | SOURCE/src/modules/python/zeroconf/src/zeroconf/_protocol/outgoing.py:370-374 | Dropping the entries at or behind the start of the rolled-back item restores exactly the table from before it |
| LabelLimits.LabelLimitExact | SOURCE/src/modules/python/zeroconf/src/zeroconf/_protocol/outgoing.py:243-250 | In any packet, a name the writer accepts, which is one without a label above 64 bytes, is written, and is read back as itself if and only if it ends in a dot, has at most 253 bytes and its labels have 1 to 63 bytes |
| LabelLimits.BadScan | SOURCE/src/modules/python/zeroconf/src/zeroconf/_protocol/incoming.py:431-441 | An empty label or one of 64 bytes is never written as a pointer; the reader gives up at it or takes it for the end |
| LabelLimits.RootMisread | SOURCE/src/modules/python/zeroconf/src/zeroconf/_protocol/outgoing.py:261-302 | In any packet the root name is written as two zero bytes, of which the reader consumes one |
| WireWriter.NameOutExtends | SOURCE/src/modules/python/zeroconf/src/zeroconf/_protocol/outgoing.py:274-302 | Writing a name only adds table entries, none in front of the bytes it writes |
| WireWriter.ItemOutBelow | SOURCE/src/modules/python/zeroconf/src/zeroconf/_protocol/outgoing.py:310-351 | New table entries lie inside what was just written |
| WireWriter.NameOutSize | SOURCE/src/modules/python/zeroconf/src/zeroconf/_protocol/outgoing.py:261-302 | A name never takes more room than its labels spelled out and a terminator |
| Packets.PlanConserves | SOURCE/src/modules/python/zeroconf/src/zeroconf/_protocol/outgoing.py:434-510 | Per section the contents of the packets and what is left make up the queue, in order: nothing is lost, repeated or reordered |
| Packets.PlanSendsAll | SOURCE/src/modules/python/zeroconf/src/zeroconf/_protocol/outgoing.py:434-510 | Nothing is left when every item fits alone in 8966 bytes |
| Packets.PlanSized | SOURCE/src/modules/python/zeroconf/src/zeroconf/_protocol/outgoing.py:353-360 | No packet exceeds 8966 bytes, one above 1460 holds exactly one item, and its counts are those of its contents |
| LonePackets.LoneItem | SOURCE/src/modules/python/zeroconf/src/zeroconf/_protocol/outgoing.py:353-360 | Any item that fits 8966 bytes alone, in any of the four sections, is sent alone in one packet of the size it needs |
| LonePackets.OversizedQuestion | SOURCE/src/modules/python/zeroconf/src/zeroconf/_protocol/outgoing.py:415-422 | One question with enough labels makes a packet between 1461 and 8966 bytes |
| LonePackets.OversizedIsLone | SOURCE/src/modules/python/zeroconf/src/zeroconf/_protocol/outgoing.py:353-360 | Of any queue, every packet above 1460 bytes holds exactly one item, of one section, and is as large as the packet that takes just this item |
| LonePackets.OversizedExactly | SOURCE/src/modules/python/zeroconf/src/zeroconf/_protocol/outgoing.py:353-360 | Some queue makes an item travel in a packet above 1460 bytes if and only if a packet of its own needs more than that and at most 8966 |
| LonePackets.DocumentedLimit | SOURCE/src/modules/python/zeroconf/src/zeroconf/_protocol/outgoing.py:415-422 | Without a question, authority or additional record that alone needs more than 1460 bytes, a packet above that size holds a single answer, as documented |
| FullPackets.PacketFull | SOURCE/src/modules/python/zeroconf/src/zeroconf/_protocol/outgoing.py:434-442 | Packets are filled as far as they go: the first item of a section left behind a packet needs, spelled out, more than the packet has room for below 1460 bytes |
| FullPackets.PlanStuck | SOURCE/src/modules/python/zeroconf/src/zeroconf/_protocol/outgoing.py:353-360 | If the first queued item needs more than 8966 bytes its section is never sent, and no packet is above 1460 bytes |
| Packets.PlanMore | SOURCE/src/modules/python/zeroconf/src/zeroconf/_protocol/outgoing.py:475-486 | The truncation mark is set on exactly the packets behind which items remain |
| PacketHeaders.HeaderOfPacket | SOURCE/src/modules/python/zeroconf/src/zeroconf/_protocol/outgoing.py:444-491 | In the bytes of every packet: the id for unicast only, the four counts, the size limits, and the message's own flags, with the TC bit added exactly when it is a query and items remain |
| PacketHeaders.TcMark | SOURCE/src/modules/python/zeroconf/src/zeroconf/_protocol/outgoing.py:475-486 | The TC bit of a query's packet is set exactly when items remain or the message's own flags carry it |
| Packets.PlanStep | SOURCE/src/modules/python/zeroconf/src/zeroconf/_protocol/outgoing.py:434-510 | One turn of the packet loop splits every section into what the packet holds and what remains |
| Packets.FillProgress | SOURCE/src/modules/python/zeroconf/src/zeroconf/_protocol/outgoing.py:353-360 | A fresh packet takes the first queued item whenever that item fits alone, so the loop of `packets()` ends |
| Outgoing.DNSOutgoing.constructor | SOURCE/src/modules/python/zeroconf/src/zeroconf/_protocol/outgoing.py:99-117 | A new message is empty, with its header settings |
| Outgoing.DNSOutgoing.AddQuestion | SOURCE/src/modules/python/zeroconf/src/zeroconf/_protocol/outgoing.py:147-149 | Appends to the questions and nothing else |
| Outgoing.DNSOutgoing.AddAnswerAtTime | SOURCE/src/modules/python/zeroconf/src/zeroconf/_protocol/outgoing.py:156-160 | Queues the answer with its time unless it has expired; a zero time skips the test |
| Outgoing.DNSOutgoing.AddAuthorativeAnswer | SOURCE/src/modules/python/zeroconf/src/zeroconf/_protocol/outgoing.py:162-164 | Appends to the authorities |
| Outgoing.DNSOutgoing.AddAdditionalAnswer | SOURCE/src/modules/python/zeroconf/src/zeroconf/_protocol/outgoing.py:166-202 | Appends to the additionals |
| Outgoing.DNSOutgoing.WriteString | SOURCE/src/modules/python/zeroconf/src/zeroconf/_protocol/outgoing.py:236-241 | Appends a chunk and keeps the size in step |
| Outgoing.DNSOutgoing.WriteUtf | SOURCE/src/modules/python/zeroconf/src/zeroconf/_protocol/outgoing.py:243-250 | A label with its length byte, refused above 64 bytes |
| Outgoing.DNSOutgoing.WriteCharacterString | SOURCE/src/modules/python/zeroconf/src/zeroconf/_protocol/outgoing.py:252-259 | A string with its length byte, refused above 256 bytes, and failing at 256 |
| Outgoing.DNSOutgoing.WriteLinkToName | SOURCE/src/modules/python/zeroconf/src/zeroconf/_protocol/outgoing.py:304-308 | A compression pointer |
| Outgoing.DNSOutgoing.WriteName | SOURCE/src/modules/python/zeroconf/src/zeroconf/_protocol/outgoing.py:261-302 | The loop over suffixes, with offsets computed from text lengths, appends what the recursive specification says and leaves its table |
| Outgoing.DNSOutgoing.WriteSuffixes | SOURCE/src/modules/python/zeroconf/src/zeroconf/_protocol/outgoing.py:282-302 | The loop of `write_name` behind the first label refines the recursive specification |
| Outgoing.DNSOutgoing.WriteService | SOURCE/src/modules/python/zeroconf/src/zeroconf/_dns.py:502-507 | Priority, weight, port and server name |
| Outgoing.DNSOutgoing.WriteHinfo | SOURCE/src/modules/python/zeroconf/src/zeroconf/_dns.py:338-341 | Two character strings |
| Outgoing.DNSOutgoing.WriteNsec | SOURCE/src/modules/python/zeroconf/src/zeroconf/_dns.py:564-582 | The next name and the bitmap, with the errors of both |
| Outgoing.DNSOutgoing.WriteRData | SOURCE/src/modules/python/zeroconf/src/zeroconf/_dns.py:237-239 | The payload of every record class, appended as specified |
| Outgoing.DNSOutgoing.CheckDataLimitOrRollback | SOURCE/src/modules/python/zeroconf/src/zeroconf/_protocol/outgoing.py:353-374 | Keeps the item, or restores bytes, size and table from before it |
| Outgoing.DNSOutgoing.WriteRecordClass | SOURCE/src/modules/python/zeroconf/src/zeroconf/_protocol/outgoing.py:319-325 | The unique bit goes out on multicast packets only |
| Outgoing.DNSOutgoing.WriteTtl | SOURCE/src/modules/python/zeroconf/src/zeroconf/_protocol/outgoing.py:327-329 | The full TTL, or what is left of it at the given time |
| Outgoing.DNSOutgoing.WriteQuestion | SOURCE/src/modules/python/zeroconf/src/zeroconf/_protocol/outgoing.py:310-317 | One tentative write of a question |
| Outgoing.DNSOutgoing.WriteRecord | SOURCE/src/modules/python/zeroconf/src/zeroconf/_protocol/outgoing.py:331-351 | One tentative write of a record, with its length patched in afterwards |
| Outgoing.DNSOutgoing.WriteQuestionsFromOffset | SOURCE/src/modules/python/zeroconf/src/zeroconf/_protocol/outgoing.py:376-382 | The section loop refines the recursive specification |
| Outgoing.DNSOutgoing.WriteAnswersFromOffset | SOURCE/src/modules/python/zeroconf/src/zeroconf/_protocol/outgoing.py:384-390 | The section loop refines the recursive specification |
| Outgoing.DNSOutgoing.WriteRecordsFromOffset | SOURCE/src/modules/python/zeroconf/src/zeroconf/_protocol/outgoing.py:392-398 | The section loop refines the recursive specification |
| Outgoing.DNSOutgoing.InsertShortAtStart | SOURCE/src/modules/python/zeroconf/src/zeroconf/_protocol/outgoing.py:213-215 | A header field goes in front of everything written |
| Outgoing.DNSOutgoing.ResetForNextPacket | SOURCE/src/modules/python/zeroconf/src/zeroconf/_protocol/outgoing.py:127-131 | Back to an empty packet |
| Outgoing.DNSOutgoing.FillPacket | SOURCE/src/modules/python/zeroconf/src/zeroconf/_protocol/outgoing.py:439-442 | All four section loops, as one fill of the packet; which field is which section is pinned by `Exchange.Exchange` |
| Outgoing.DNSOutgoing.FinishPacket | SOURCE/src/modules/python/zeroconf/src/zeroconf/_protocol/outgoing.py:446-491 | The header in front of the body |
| Outgoing.DNSOutgoing.Packets | SOURCE/src/modules/python/zeroconf/src/zeroconf/_protocol/outgoing.py:415-510 | `packets()` returns exactly the packets of the functional plan, or raises exactly when it does; once finished it returns them again |
| NsecBitmap.BitmapRoundTrip | SOURCE/src/modules/python/zeroconf/src/zeroconf/_dns.py:564-582 | Writing the NSEC bitmap and reading it back gives the distinct types in order (section 4.1.2 of RFC 4034) |
| NsecBitmap.BuildBitmap | SOURCE/src/modules/python/zeroconf/src/zeroconf/_dns.py:564-582 | The in-place bitmap is the one that has exactly the listed types set; a type above 255 is an error |
| NsecBitmap.SortSorted | SOURCE/src/modules/python/zeroconf/src/zeroconf/_dns.py:549-562 | Sorting an already sorted list changes nothing |
| NsecBitmap.SortTypes | SOURCE/src/modules/python/zeroconf/src/zeroconf/_dns.py:549-562 | The types in order, none lost and none added |
| NameDecoder.LoopDetectionExact | SOURCE/src/modules/python/zeroconf/src/zeroconf/_protocol/incoming.py:442-469 | Loop detection accepts a name exactly when following its pointers ends, on every byte string, and changes no answer |
| NameDecoder.CacheHit | SOURCE/src/modules/python/zeroconf/src/zeroconf/_protocol/incoming.py:456-460 | Using remembered labels skips no loop check that could have failed |
| NameDecoder.ForgetSeen | SOURCE/src/modules/python/zeroconf/src/zeroconf/_protocol/incoming.py:421-469 | A decoding that succeeds does not depend on which pointers were followed before it |
| Incoming.DNSIncoming.DecodeLabelsAtOffset | SOURCE/src/modules/python/zeroconf/src/zeroconf/_protocol/incoming.py:421-469 | The caching decoder gives, whatever was read before, the labels, next offset and accept or reject outcome of the cache-free one; it ends on any input, by targets not yet seen and then bytes left |
| Incoming.DNSIncoming.LabelsAt | SOURCE/src/modules/python/zeroconf/src/zeroconf/_protocol/incoming.py:455-466 | Remembered labels are used or new ones remembered, with the cache-free outcome either way |
| Incoming.DNSIncoming.ReadNameHere | SOURCE/src/modules/python/zeroconf/src/zeroconf/_protocol/incoming.py:407-419 | Names of more than 253 characters are refused, all others are those of the cache-free reader |
| Incoming.DNSIncoming.ReadQuestionHere | SOURCE/src/modules/python/zeroconf/src/zeroconf/_protocol/incoming.py:246-257 | One question, or the exception of a packet cut short |
| Incoming.DNSIncoming.ReadQuestionsHere | SOURCE/src/modules/python/zeroconf/src/zeroconf/_protocol/incoming.py:242-257 | The questions up to the first error are kept; the QU flag says whether one of them asks for unicast |
| Incoming.DNSIncoming.ReadCharacterStringHere | SOURCE/src/modules/python/zeroconf/src/zeroconf/_protocol/incoming.py:259-265 | Length byte and bytes |
| Incoming.DNSIncoming.ReadBitmapHere | SOURCE/src/modules/python/zeroconf/src/zeroconf/_protocol/incoming.py:389-405 | The types of all windows |
| Incoming.SetBits | SOURCE/src/modules/python/zeroconf/src/zeroconf/_protocol/incoming.py:399-404 | The two inner loops list exactly the types whose bits are set |
| Incoming.DNSIncoming.ReadRecordHere | SOURCE/src/modules/python/zeroconf/src/zeroconf/_protocol/incoming.py:309-387 | The payload by type; unknown types are skipped by their stated length (`ReaderLaws.UnknownSkipped`) |
| Incoming.DNSIncoming.ReadTurnHere | SOURCE/src/modules/python/zeroconf/src/zeroconf/_protocol/incoming.py:279-307 | A record whose payload does not decode is skipped by its stated length |
| Incoming.DNSIncoming.ReadOthersHere | SOURCE/src/modules/python/zeroconf/src/zeroconf/_protocol/incoming.py:273-307 | The records up to the first unreadable header are kept |
| Incoming.DNSIncoming.ReadHeaderHere | SOURCE/src/modules/python/zeroconf/src/zeroconf/_protocol/incoming.py:229-240 | The six header fields; those behind the end of a short packet stay 0 |
| Incoming.DNSIncoming.constructor | SOURCE/src/modules/python/zeroconf/src/zeroconf/_protocol/incoming.py:96-131 | Header, questions and validity are what the cache-free functions read; other records are read now only if there are no questions |
| Incoming.DNSIncoming.InitialParse | SOURCE/src/modules/python/zeroconf/src/zeroconf/_protocol/incoming.py:175-181 | The same, with the exceptions that are swallowed |
| Incoming.DNSIncoming.Answers | SOURCE/src/modules/python/zeroconf/src/zeroconf/_protocol/incoming.py:194-206 | Of a valid message, exactly the records of the cache-free reader, whether read before or only now; of any other, the records from where the reader stopped |
| QueryPacking.GroupedPartitions | SOURCE/src/modules/python/zeroconf/src/zeroconf/_services/browser.py:234-253 | Every question lands, with all its known answers, in exactly one bucket |
| QueryPacking.GroupedWhole | SOURCE/src/modules/python/zeroconf/src/zeroconf/_services/browser.py:244-253 | No bucket is empty, and one above 1448 bytes holds a single question |
| QueryPacking.GroupedTight | SOURCE/src/modules/python/zeroconf/src/zeroconf/_services/browser.py:234-253 | With non-negative estimates any two buckets together exceed 1448 bytes |
| QueryPacking.GroupedFull | SOURCE/src/modules/python/zeroconf/src/zeroconf/_services/browser.py:234-253 | So `k` buckets, for `k` at least 2, hold more than `k / 2` times 1448 bytes |
| QueryPacking.SortedWell | SOURCE/src/modules/python/zeroconf/src/zeroconf/_services/browser.py:236-240 | The queries in decreasing order of their estimates |
| QueryPacking.SortStable | SOURCE/src/modules/python/zeroconf/src/zeroconf/_services/browser.py:236-240 | Queries with the same estimate keep their order |
| QueryPacking.GroupedOrdered | SOURCE/src/modules/python/zeroconf/src/zeroconf/_services/browser.py:234-253 | The largest queries are placed first: estimates decrease inside every bucket and over the first queries of the buckets |
| QueryPacking.EstimateIs | SOURCE/src/modules/python/zeroconf/src/zeroconf/_services/browser.py:230-233 | The estimate of a query: its name and 5 bytes, and for each known answer 14 bytes and what its alias has more than its name |
| QueryPacking.PlaceWhere | SOURCE/src/modules/python/zeroconf/src/zeroconf/_services/browser.py:243-253 | A query goes to the first bucket with room, otherwise to a new one |
| QueryPacking.Bucket.Add | SOURCE/src/modules/python/zeroconf/src/zeroconf/_services/browser.py:195-200 | The question and its unexpired answers join the bucket's message, and its estimate grows with them |
| QueryPacking.PlaceQuery | SOURCE/src/modules/python/zeroconf/src/zeroconf/_services/browser.py:243-253 | The search for a bucket refines first fit, on distinct bucket objects |
| QueryPacking.Group | SOURCE/src/modules/python/zeroconf/src/zeroconf/_services/browser.py:219-255 | One new query message per bucket of the plan, with exactly the bucket's questions and unexpired answers in its fields and nothing else |
| QuerySize.BucketFits | SOURCE/src/modules/python/zeroconf/src/zeroconf/_services/browser.py:230-255 | A bucket of at most 1448 estimated bytes, whose answers are instances of its questions' types, becomes exactly one packet, of at most 1460 bytes and at most 12 plus the estimate, holding everything |
| QuerySize.GroupedFits | SOURCE/src/modules/python/zeroconf/src/zeroconf/_services/browser.py:219-255 | Every bucket with more than one question becomes exactly one packet of at most 1460 bytes |
| QuerySize.QuestionEstimateExact | SOURCE/src/modules/python/zeroconf/src/zeroconf/_dns.py:136-138 | The estimate of a question covers what is written exactly when its name ends in a dot; otherwise it is one byte short |
| QuerySize.TellSize | SOURCE/src/modules/python/zeroconf/src/zeroconf/_dns.py:385-392 | The estimate of a known answer covers what is written once the question's name is in the table |
| QuerySize.TellExact | SOURCE/src/modules/python/zeroconf/src/zeroconf/_dns.py:385-392 | It is exact for an alias of one new label |
| QuerySize.SuffixSize | SOURCE/src/modules/python/zeroconf/src/zeroconf/_protocol/outgoing.py:282-302 | A name that ends in a known suffix takes at most its other labels and a pointer |
| CacheRuns.RunNeverFails | SOURCE/src/modules/python/zeroconf/src/zeroconf/_cache.py:141-186 | Over every run of additions, removals, expirations, flushes and whole responses in which no record regains an expiry for which it still has a stale heap entry, expiring never fails, whatever the time |
| CacheRuns.RunExpires | SOURCE/src/modules/python/zeroconf/src/zeroconf/_cache.py:141-186 | After such a run, expiring reports each record with `created + 1000 * ttl <= now` exactly once, removes just those, keeps all others as they are, and the heap still holds each of them once, cleaned up or not |
| CacheRuns.RegainedExpiryFails | SOURCE/src/modules/python/zeroconf/src/zeroconf/_cache.py:92-101 | Without that condition there is a run, for any record, whose next expiry fails |
| CacheRuns.AddFailsExactly | SOURCE/src/modules/python/zeroconf/src/zeroconf/_cache.py:79-107 | From a state whose heap repeats nothing, some expiry fails after an addition if and only if the record regains an expiry that still stands in the heap |
| CacheRuns.FlushFailsExactly | SOURCE/src/modules/python/zeroconf/src/zeroconf/_cache.py:302-325 | The same for flushing: some expiry fails afterwards if and only if a flushed record regains an expiry |
| CacheRuns.Conservation | SOURCE/src/modules/python/zeroconf/src/zeroconf/_cache.py:141-186 | Over every such run, each time a record came into the cache it was removed, said goodbye or was reported once, or is still there |
| CacheRuns.RunSound | SOURCE/src/modules/python/zeroconf/src/zeroconf/_cache.py:79-107 | Over every run, each cached record is filed under its identity and has its expiry in the heap |
| CacheRuns.RunNoRepeats | SOURCE/src/modules/python/zeroconf/src/zeroconf/_cache.py:97-100 | Without regained expiries no pair of time and record stands in the heap twice |
| CacheState.ExpiredSound | SOURCE/src/modules/python/zeroconf/src/zeroconf/_cache.py:165-183 | Neither the expiry loop nor the clean-up of the heap loses an entry that still counts |
| CacheState.HeapBounded | SOURCE/src/modules/python/zeroconf/src/zeroconf/_cache.py:171-183 | After expiry the heap holds at most 100 entries, or at most two for each record there was |
| CacheState.StaleKept | SOURCE/src/modules/python/zeroconf/src/zeroconf/_cache.py:171-183 | Below these limits no entry that is not due is weeded out |
| CacheState.AddedSound | SOURCE/src/modules/python/zeroconf/src/zeroconf/_cache.py:79-107 | Adding keeps the invariant, and repeats no entry unless an expiry is regained |
| CacheState.FlushedSound | SOURCE/src/modules/python/zeroconf/src/zeroconf/_cache.py:302-325 | Flushing keeps the invariant, and repeats no entry unless an expiry is regained |
| CacheRuns.RespondedSound | SOURCE/src/modules/python/zeroconf/src/zeroconf/_handlers/record_manager.py:77-165 | A whole response keeps the invariant, and repeats no entry unless it flushes or adds a record that regains an expiry |
| Cache.DNSCache.constructor | SOURCE/src/modules/python/zeroconf/src/zeroconf/_cache.py:70-74 | Empty |
| Cache.DNSCache.AsyncAdd | SOURCE/src/modules/python/zeroconf/src/zeroconf/_cache.py:79-107 | Both indexes, the expiry map and the heap together act like one insertion into a flat map; the result tells whether the record was new and not NSEC |
| Cache.DNSCache.AsyncAddRecords | SOURCE/src/modules/python/zeroconf/src/zeroconf/_cache.py:109-120 | All insertions in order; true exactly when one of the records was not cached before and is not NSEC |
| Cache.DNSCache.AsyncRemove | SOURCE/src/modules/python/zeroconf/src/zeroconf/_cache.py:122-131 | Removal from both indexes and the expiry map, empty buckets included; KeyError, and no change, when the record is not cached |
| Cache.DNSCache.AsyncRemoveRecords | SOURCE/src/modules/python/zeroconf/src/zeroconf/_cache.py:133-139 | Succeeds exactly when all are cached and none is named twice, and then removes exactly those; otherwise those in front of the failing one are gone |
| Cache.DNSCache.TakeDue | SOURCE/src/modules/python/zeroconf/src/zeroconf/_cache.py:149-165 | Every entry due leaves the heap, and each one that still counts is collected |
| Cache.DNSCache.Weed | SOURCE/src/modules/python/zeroconf/src/zeroconf/_cache.py:171-183 | The clean-up keeps exactly the entries that still count |
| Cache.DNSCache.AsyncExpire | SOURCE/src/modules/python/zeroconf/src/zeroconf/_cache.py:141-186 | Raises KeyError exactly when a due record stands in the heap twice, and then only due records are gone and the heap is purged all the same; otherwise reports every due record once, removes exactly those, and purges the heap |
| Cache.DNSCache.AsyncGetUnique | SOURCE/src/modules/python/zeroconf/src/zeroconf/_cache.py:188-198 | A lookup in the flat set of records |
| Cache.DNSCache.EntriesWithName | SOURCE/src/modules/python/zeroconf/src/zeroconf/_cache.py:281-285 | The cached records with that name, case aside |
| Cache.DNSCache.EntriesWithServer | SOURCE/src/modules/python/zeroconf/src/zeroconf/_cache.py:275-279 | The cached service records with that server, case aside |
| Cache.DNSCache.CachedNames | SOURCE/src/modules/python/zeroconf/src/zeroconf/_cache.py:298-300 | The names of the cached records, and no others |
| Cache.DNSCache.AsyncAllByDetails | SOURCE/src/modules/python/zeroconf/src/zeroconf/_cache.py:200-214 | Exactly the cached records of that name, type and class, each once |
| Cache.DNSCache.GetByDetails | SOURCE/src/modules/python/zeroconf/src/zeroconf/_cache.py:246-265 | A cached record of that name, type and class, or none if there is none |
| Cache.DNSCache.AsyncMarkUniqueRecordsOlderThan1sToExpire | SOURCE/src/modules/python/zeroconf/src/zeroconf/_cache.py:302-325 | Exactly the records of a claimed set that are older than a second and not among the answers get one second more to live (section 10.2 of RFC 6762) |
| Cache.FiledRemove | SOURCE/src/modules/python/zeroconf/src/zeroconf/_cache.py:56-64 | Removing a key fails exactly when the record is not filed, and keeps the index exact |
| Cache.ExpireOutcome | SOURCE/src/modules/python/zeroconf/src/zeroconf/_cache.py:165-185 | The collected records can all be removed exactly when none was collected twice |
| HeapQueue.HeapPush | SOURCE/src/modules/python/zeroconf/src/zeroconf/_cache.py:99-99 | The entries and the new one, still a heap |
| HeapQueue.HeapPop | SOURCE/src/modules/python/zeroconf/src/zeroconf/_cache.py:158-158 | An entry that is due first leaves, the others stay a heap |
| HeapQueue.Heapify | SOURCE/src/modules/python/zeroconf/src/zeroconf/_cache.py:183-183 | The same entries as a heap |
| HeapQueue.RootFirst | SOURCE/src/modules/python/zeroconf/src/zeroconf/_cache.py:151-158 | The first entry of a heap is due first |
| RecordManager.RecordManager.AsyncUpdatesFromResponse | SOURCE/src/modules/python/zeroconf/src/zeroconf/_handlers/record_manager.py:77-165 | Effect of one response on the cache, record by record: gone after a goodbye for a cached record, otherwise the last live copy, otherwise flushed to one more second if a claimed set leaves it out, otherwise unchanged; the pending expirations as well, so that the theorems about runs apply; also what listeners are told, and that no removal fails |
| Responses.EffectIs | SOURCE/src/modules/python/zeroconf/src/zeroconf/_handlers/record_manager.py:118-163 | Flushing, address additions, other additions and goodbyes in this order settle every record as stated |
| Responses.AfterwardsIs | SOURCE/src/modules/python/zeroconf/src/zeroconf/_handlers/record_manager.py:80-163 | The effect of a response on a record in terms of the answers as they came: which goodbyes remove it, which copy replaces it with which lifetime, and when it is flushed to one more second |
| Responses.RemovalsAre | SOURCE/src/modules/python/zeroconf/src/zeroconf/_handlers/record_manager.py:158-163 | The goodbyes for cached records can all be removed, each once, and leave the cache the response leaves |
| Responses.LastLiveIn | SOURCE/src/modules/python/zeroconf/src/zeroconf/_handlers/record_manager.py:101-112 | Addresses and other records never compete, so adding them in two batches keeps the last copy of each |
| Responses.NotifyIs | SOURCE/src/modules/python/zeroconf/src/zeroconf/_handlers/record_manager.py:151-165 | Waiters are notified exactly when a live record other than NSEC was not cached before the response |
| RecordManager.RecordManager.Examine | SOURCE/src/modules/python/zeroconf/src/zeroconf/_handlers/record_manager.py:80-116 | The loop over the answers raises short PTR TTLs to 1125 seconds and sorts the records into additions, removals and claimed sets |
| Responses.Raise | SOURCE/src/modules/python/zeroconf/src/zeroconf/_handlers/record_manager.py:94-101 | A pointer record that is not a goodbye gets at least 1125 seconds, all other records and fields stay as they are |
| Scheduler.AtMostTwoRescues | SOURCE/src/modules/python/zeroconf/src/zeroconf/_services/browser.py:432-454 | At most two rescue queries follow a first refresh when three clock resolutions are at most 5% of the lifetime |
| Scheduler.AgreePop | SOURCE/src/modules/python/zeroconf/src/zeroconf/_services/browser.py:500-512 | Taking the first entry keeps the alias map exact, and for a live entry the deletion from the map finds it |
| Scheduler.AgreePush | SOURCE/src/modules/python/zeroconf/src/zeroconf/_services/browser.py:403-406 | Scheduling a query keeps the alias map exactly the live heap entries |
| Scheduler.QueryScheduler.constructor | SOURCE/src/modules/python/zeroconf/src/zeroconf/_services/browser.py:342-366 | Nothing is scheduled |
| Scheduler.QueryScheduler.Stop | SOURCE/src/modules/python/zeroconf/src/zeroconf/_services/browser.py:382-388 | Nothing is scheduled and no timer is pending |
| Scheduler.QueryScheduler.SchedulePtrQuery | SOURCE/src/modules/python/zeroconf/src/zeroconf/_services/browser.py:403-406 | Heap and alias map both gain the query; the map stays exact if and only if nothing was scheduled for the alias |
| Scheduler.QueryScheduler.CancelPtrRefresh | SOURCE/src/modules/python/zeroconf/src/zeroconf/_services/browser.py:408-412 | The alias leaves the map, its entry stays in the heap marked, all others are untouched |
| Scheduler.QueryScheduler.ReschedulePtrFirstRefresh | SOURCE/src/modules/python/zeroconf/src/zeroconf/_services/browser.py:414-430 | Nothing changes if and only if a query is scheduled for the alias within the minimum interval of 75% of the record's lifetime; in every other case the alias gets a new query due at exactly that time, in place of any old one |
| Scheduler.QueryScheduler.ScheduleRescueQuery | SOURCE/src/modules/python/zeroconf/src/zeroconf/_services/browser.py:432-454 | A rescue 10% of the lifetime later, if that is before the record expires, each due within the bounds for its number |
| Scheduler.QueryScheduler.PopFirst | SOURCE/src/modules/python/zeroconf/src/zeroconf/_services/browser.py:500-512 | The first entry leaves the heap; for a live one the deletion from the alias map finds just that query |
| Scheduler.QueryScheduler.TakeDue | SOURCE/src/modules/python/zeroconf/src/zeroconf/_services/browser.py:500-516 | A pass takes exactly the live queries that are due, each once, and finds when the first other one is due |
| Scheduler.QueryScheduler.ProcessReadyTypes | SOURCE/src/modules/python/zeroconf/src/zeroconf/_services/browser.py:482-533 | One pass: every live due query is sent and gives way to a query 10% of the lifetime later if the record then still lives, all others stay; the next pass is armed for the first query left, or the minimum interval later if that is later |
| Scheduler.QueryScheduler.ProcessStartupQueries | SOURCE/src/modules/python/zeroconf/src/zeroconf/_services/browser.py:456-480 | Four startup queries with waits of 1, 4 and 9 seconds, then passes |
| Scheduler.QueryScheduler.Start | SOURCE/src/modules/python/zeroconf/src/zeroconf/_services/browser.py:368-380 | The first query after the random delay, which lies in the configured interval |
| MulticastState.DelayBounded | SOURCE/src/modules/python/zeroconf/src/zeroconf/_handlers/multicast_outgoing_queue.py:69-130 | Over every run with punctual timers: once the aggregation window of an add has passed, counted from the time of the add, each of its answers was sent, after it was added and before the window closed, however old the query was |
| MulticastState.RunGood | SOURCE/src/modules/python/zeroconf/src/zeroconf/_handlers/multicast_outgoing_queue.py:69-130 | Over every run: groups stay sorted, one timer is pending exactly while the queue is not empty, due between the first group's earliest time and the end of the window in which it was made, and no answer is forgotten |
| MulticastState.FireInTime | SOURCE/src/modules/python/zeroconf/src/zeroconf/_handlers/multicast_outgoing_queue.py:97-130 | A firing holds back until the first group must leave, or sends at least that group; each group it sends is between its earliest time and its latest time plus the age of the query it was made for, and what was sent waits in no other group |
| MulticastState.PromptRun | SOURCE/src/modules/python/zeroconf/src/zeroconf/_handlers/multicast_outgoing_queue.py:69-130 | When every query is added at the time it arrived no group has such a lag, so none leaves after its latest time |
| MulticastState.LateExactly | SOURCE/src/modules/python/zeroconf/src/zeroconf/_handlers/multicast_outgoing_queue.py:77-89 | For any answer and lag: some run sends the answer after the latest time of a group that was made with this lag, the age of its query when it was added, if and only if the lag is positive |
| MulticastState.AddKept | SOURCE/src/modules/python/zeroconf/src/zeroconf/_handlers/multicast_outgoing_queue.py:69-89 | An addition loses no waiting answer, and its own answers will leave within their window |
| MulticastState.FireKept | SOURCE/src/modules/python/zeroconf/src/zeroconf/_handlers/multicast_outgoing_queue.py:97-130 | A firing loses no waiting answer |
| MulticastState.FiredHolds | SOURCE/src/modules/python/zeroconf/src/zeroconf/_handlers/multicast_outgoing_queue.py:102-109 | A firing holds back, with one timer for when the first group must leave, while there are other groups and that time has not come |
| MulticastState.FiredTakes | SOURCE/src/modules/python/zeroconf/src/zeroconf/_handlers/multicast_outgoing_queue.py:111-125 | Otherwise it takes exactly the groups at the front whose time has come, and wakes up again for the first group left |
| MulticastState.FiredSends | SOURCE/src/modules/python/zeroconf/src/zeroconf/_handlers/multicast_outgoing_queue.py:111-130 | What it sends of an answer that stands in several groups, and that the groups left lose just the answers sent |
| MulticastState.Ripe | SOURCE/src/modules/python/zeroconf/src/zeroconf/_handlers/multicast_outgoing_queue.py:113-115 | The groups at the front whose earliest time has come |
| MulticastQueue.MulticastOutgoingQueue.constructor | SOURCE/src/modules/python/zeroconf/src/zeroconf/_handlers/multicast_outgoing_queue.py:58-67 | An empty queue with its delays |
| MulticastQueue.MulticastOutgoingQueue.AsyncAdd | SOURCE/src/modules/python/zeroconf/src/zeroconf/_handlers/multicast_outgoing_queue.py:69-89 | The answers join the last group or open a new one, with the times counted from the argument and the timer from the clock; the objects in the queue act like the state machine's addition |
| MulticastQueue.MulticastOutgoingQueue.RemoveAnswersFromQueue | SOURCE/src/modules/python/zeroconf/src/zeroconf/_handlers/multicast_outgoing_queue.py:91-95 | The answers are in no group any more, all else stays |
| MulticastQueue.MulticastOutgoingQueue.TakeRipe | SOURCE/src/modules/python/zeroconf/src/zeroconf/_handlers/multicast_outgoing_queue.py:111-115 | The loop takes exactly the groups at the front that are ripe, and merges their answers |
| MulticastQueue.MulticastOutgoingQueue.AsyncReady | SOURCE/src/modules/python/zeroconf/src/zeroconf/_handlers/multicast_outgoing_queue.py:97-130 | The objects in the queue act like the state machine's firing, and nothing is sent when there is nothing to send |
| Listener.AsyncListener.HandleQueryOrDefer | SOURCE/src/modules/python/zeroconf/src/zeroconf/_listener.py:186-218 | A truncated query is kept unless its bytes are kept already, and restarts the timer of its address; any other query is handed over behind what was kept |
| Listener.AsyncListener.RespondQuery | SOURCE/src/modules/python/zeroconf/src/zeroconf/_listener.py:225-239 | What was kept for the address and the packet at hand, in order of arrival, never empty, no bytes twice; timer and kept packets of the address are gone |
| Listener.AsyncListener.TimerFires | SOURCE/src/modules/python/zeroconf/src/zeroconf/_listener.py:208-218 | The timer hands over what was kept, which is never nothing |
| Listener.AsyncListener.CancelAnyTimersForAddr | SOURCE/src/modules/python/zeroconf/src/zeroconf/_listener.py:220-223 | No timer for the address, all others stay |
| Listener.AsyncListener.DatagramReceived | SOURCE/src/modules/python/zeroconf/src/zeroconf/_listener.py:87-184 | A datagram is looked at unless it is too long or repeats the last one looked at within 1000 ms, when that had no unicast question; what is looked at is remembered with its time and its unicast question, and nothing else is; and what becomes of timers, kept packets and hand-overs in each case |
| Listener.ReceiveTwice | SOURCE/src/modules/python/zeroconf/src/zeroconf/_listener.py:107-127 | The same bytes twice in a row: less than 1000 ms later and without a unicast question the second datagram is dropped, otherwise it is looked at |
| Listener.AsyncListener.constructor | SOURCE/src/modules/python/zeroconf/src/zeroconf/_listener.py:73-85 | Nothing kept, nothing accepted |
| Listener.LoggedHandOver | SOURCE/src/modules/python/zeroconf/src/zeroconf/_listener.py:225-239 | Per address, what was accepted stays the concatenation of the groups handed over and what is kept: each packet exactly once, in order |
| Listener.KeptAll | SOURCE/src/modules/python/zeroconf/src/zeroconf/_listener.py:233-239 | What is handed over is not empty and holds no bytes twice |
| TaggedJson.RoundTripExact | SOURCE/src/modules/python/flask/src/flask/json/tag.py:289-319 | Every supported value comes back if and only if no key with the suffix added is a key again |
| TaggedJson.RoundTrip | SOURCE/src/modules/python/flask/src/flask/json/tag.py:289-319 | `_untag_scan(tag(v)) == v` for all nested dictionaries, lists, tuples, scalars and special values whose kinds have tags |
| TaggedJson.DefaultForm | SOURCE/src/modules/python/flask/src/flask/json/tag.py:289-295 | The JSON the default tags make of every value, with their literal keys and the suffix |
| TaggedJson.PlainStays | SOURCE/src/modules/python/flask/src/flask/json/tag.py:297-319 | Dictionaries that are no tagged value stay dictionaries |
| TaggedJson.DictRoundTrip | SOURCE/src/modules/python/flask/src/flask/json/tag.py:103-116 | Also for a one-item dictionary whose key is itself a tag |
| TaggedJson.ClashBreaks | SOURCE/src/modules/python/flask/src/flask/json/tag.py:110-116 | A key that is another key with the suffix breaks the round trip, for a concrete value |
| TaggedJson.TagFor | SOURCE/src/modules/python/flask/src/flask/json/tag.py:289-295 | Which tag a value gets from a well-made serializer |
| TaggedJson.RegisterLeaf | SOURCE/src/modules/python/flask/src/flask/json/tag.py:256-287 | A tag for a new kind of leaf under a new key, wherever it is inserted, keeps the serializer well made, and the round trip exactly when it brings no clash |
| TaggedJson.TaggedJSONSerializer.Register | SOURCE/src/modules/python/flask/src/flask/json/tag.py:256-287 | Refuses a key that is taken unless forced, otherwise adds the tag to the keys and at its place in the order, counted from the end for a negative index and cut to the list |
| TaggedJson.TaggedJSONSerializer.constructor | SOURCE/src/modules/python/flask/src/flask/json/tag.py:236-254 | The default tags, registered in order under their keys, make a serializer for which the round trip holds |
| TxtProperties.TxtRoundTrip | SOURCE/src/modules/python/zeroconf/src/zeroconf/_services/info.py:374-401 | Properties whose entries fit 255 bytes are read back from their text if and only if no key contains an equals sign and no value is empty (section 6.4 of RFC 6763) |
| TxtProperties.SetThenUnpack | SOURCE/src/modules/python/zeroconf/src/zeroconf/_services/info.py:374-441 | Over the class: setting properties and unpacking their text gives back what was set, text as its bytes, under exactly that condition |
| TxtProperties.UnpackedFirst | SOURCE/src/modules/python/zeroconf/src/zeroconf/_services/info.py:419-441 | For any text: keys come once each, no value is empty, and each key has the value of its first entry |
| TxtProperties.SplitText | SOURCE/src/modules/python/zeroconf/src/zeroconf/_services/info.py:391-392 | The entries of a text that was written are the entries written |
| TxtProperties.TextMore | SOURCE/src/modules/python/zeroconf/src/zeroconf/_services/info.py:374-392 | One property more in the text: a length byte, the key, and an equals sign with the value if there is one; ValueError above 255 bytes |
| TxtProperties.KeyLength | SOURCE/src/modules/python/zeroconf/src/zeroconf/_services/info.py:433-436 | The key of an entry ends at its first equals sign, and its value is what follows, if anything does |
| TxtProperties.ServiceInfo.SetProperties | SOURCE/src/modules/python/zeroconf/src/zeroconf/_services/info.py:374-401 | The text of the entries, or ValueError and no change when one is longer than 255 bytes; the properties are kept as given only when all are bytes |
| TxtProperties.ServiceInfo.UnpackTextIntoProperties | SOURCE/src/modules/python/zeroconf/src/zeroconf/_services/info.py:419-441 | The loop ends on any text and gives the first occurrence of each key |
| TxtProperties.Partition | SOURCE/src/modules/python/zeroconf/src/zeroconf/_services/info.py:433-436 | The part before the first equals sign, and what follows it unless that is empty |
| TxtProperties.TextFails | SOURCE/src/modules/python/zeroconf/src/zeroconf/_services/info.py:391-392 | Writing fails exactly when an entry is longer than 255 bytes |
| ContextStack.Worker.Run | SOURCE/src/modules/python/flask/src/flask/ctx.py:274-285 | Every well-nested run of `with` blocks over any contexts, the one active at the time included: both context variables and all tokens are back afterwards, also when teardown raises; a pop never finds the wrong context; how the run ends, how often teardown ran for every context, and how many application contexts came with requests, each torn down once, are stated exactly |
| ContextStack.Worker.RunBody | SOURCE/src/modules/python/flask/src/flask/ctx.py:433-443 | The same for the body of a block: its blocks one after the other, up to the first exception |
| ContextStack.Worker.PushApp | SOURCE/src/modules/python/flask/src/flask/ctx.py:251-254 | A frame more, and the context's token for it |
| ContextStack.Worker.PopApp | SOURCE/src/modules/python/flask/src/flask/ctx.py:256-272 | A frame less, both variables as before its push, and an exception only from teardown |
| ContextStack.Worker.PushRequest | SOURCE/src/modules/python/flask/src/flask/ctx.py:367-393 | A request frame, above a frame for a new application context, never torn down yet, exactly when none of that application is active |
| ContextStack.Worker.PopRequest | SOURCE/src/modules/python/flask/src/flask/ctx.py:396-431 | All frames of the push are gone, both contexts are torn down exactly when that was their last token, and an exception comes exactly from a teardown that raises |
| ContextStack.RequestFacts | SOURCE/src/modules/python/flask/src/flask/ctx.py:367-381 | What a whole request push does to the variables and to the tokens of every context |
| Contexts.AppContext.Push | SOURCE/src/modules/python/flask/src/flask/ctx.py:251-254 | Binds the variable and keeps the token |
| Contexts.AppContext.Pop | SOURCE/src/modules/python/flask/src/flask/ctx.py:256-272 | Restores the variable even when teardown raises; the assertion fails exactly when another context was active and teardown did not raise |
| Contexts.RequestContext.Push | SOURCE/src/modules/python/flask/src/flask/ctx.py:367-381 | Binds the variable, with a new application context when needed |
| Contexts.RequestContext.Pop | SOURCE/src/modules/python/flask/src/flask/ctx.py:396-431 | Restores the request variable, then pops the application context that came with it, whatever state that is in; which exception wins is stated |

## Left out

- WireRoundTrip.RoundTrip: the scope of an IPv6 address is the receiver's own, NSEC types come back as a sorted set, and well-formed names have labels of 1 to 63 bytes, end in a dot and have at most 253 bytes, because the wire format carries no more; TTLs are the seconds that were written, which for answers queued with a time are what is left, rounded down.
- Incoming.DNSIncoming.Answers: for a message that is not valid, does not say where in the packet the reader had stopped.
- Incoming.DNSIncoming.DecodeLabelsAtOffset: does not model Python's recursion limit, which ends very long chains of pointers earlier.
- Cache.DNSCache.AsyncExpire: does not say which of the due records are still cached after it has raised, because the heap leaves ties open.
- Cache.DNSCache.GetByDetails: returns some match, because the order in which a dictionary keeps its items is not modelled.
- Contexts.AppContext.Pop: does not model the signals that are sent, nor a token used from another thread of control.
- Contexts.RequestContext.Push: does not model opening the session and matching the URL, which may raise after the push.
- ContextStack.Worker.Run: of the application contexts that come with a request, a block can push again the one that is active, and none that is further down or was popped; reading the variable when none is active is a LookupError.
- Contexts.RequestContext.Pop: counts closing the request as part of its teardown.
- MulticastState.DelayBounded: assumes timers that fire when they are due.
- Scheduler.QueryScheduler.ProcessReadyTypes: does not say that every query is sent within the minimum interval, because a rescue does not pull an armed timer earlier.
- TxtProperties.ServiceInfo.SetProperties: values that are neither bytes nor text are taken as their text.
- TaggedJson.RoundTrip: takes the codecs of bytes, markup, UUIDs and dates as given pairs of inverse functions, and JSON text as a faithful copy of dictionaries, lists and scalars.
- Text as characters: names, aliases and strings are their UTF-8 bytes, so limits on characters and lower-casing are exact for single-byte characters only, and decoding with replacement is not modelled.
- Integers outside their fields: types, ports, priorities and classes are 16-bit by type; the exceptions for TTLs of more than 32 bits and payloads of more than 65535 bytes are modelled.
- Floating point: times are real numbers, TTLs natural numbers.
- Records as shared objects: the model replaces a record where the source changes its creation time and TTL in place, so that other holders of the same record seeing the change is not modelled.
- Listeners, service browsers and waiters: what they are told is returned, what they do is not modelled.
- `add_answer` with known-answer suppression, the choice of answers and additionals in `query_handler.py`, `ServiceRegistry` and `QuestionHistory`.
- `DNSCache.get`, `current_entry_with_name_and_alias` and the copies made for other threads.
- Sockets, transports, the event loop and threads; a timer is a pending due time.
- Logging, `__repr__`, lookup tables, fast initialisers and hashing.
- The rest of `ServiceInfo`, and the rest of Flask.
