# Verified cores of a weak-signal radio program

WSJT-X style software is mostly user interface and rig plumbing. This project models the parts
of it that are protocols, file formats and small state machines, and proves what they are for.
It is written for Dafny 4.11; `dafny verify dfyconfig.toml` checks all of it.

Code that works step by step in the source is a method or a class here, proved against a
specification function or a reference definition; what the program promises is then proved
about those.

- **Broadcast wave files.** `RiffReader`, `RiffImage`, `RiffRoundTrip`, `RiffContents` and
  `BwfFile` model the RIFF writer, which patches lengths in place and appends metadata when it
  closes a file, and the reader that walks three levels of chunks. A file that was written and
  closed is read back with the same format, samples, bext block and INFO values, as is any
  well-formed file with chunks of other kinds among these; on any octets whatever the reader ends,
  stays inside the file and accepts only properly nested chunks.
- **PSK Reporter.** `Utf8`, `Ipfix`, `IpfixDecoder`, `PskCollector`, `IpfixRoundTrip`, `Packets` and
  `PskReporter` model the IPFIX packets that carry reception reports. A decoder written from RFC
  7011 alone (message header, set padding, templates, variable-length fields) and a collector that
  finds values by the numbers of their elements recover receiver and spots from them; the greedy
  division into packets uses as few packets as any other; the queue, the cache that suppresses
  repeats, the sequence numbers and the packet sizes are followed over all runs.
- **Configurations.** `SettingsStore`, `Configurations` and `MultiSettings` model the switcher
  that keeps several named configurations in one flat key/value store. Every menu operation,
  every start and the deferred exchange at exit is an update of a map from names to settings.
- **Ham Radio Deluxe.** `HrdMessage` is the message codec with the loop that reassembles
  replies; `HrdTransceiver` is split and two-VFO control against a rig with buttons, dropdowns
  and two VFOs.
- **Receive buffer.** `AudioDevice` and `Detector` cut sound card frames into blocks and collect
  them for a period.
- **One-time passwords.** `OtpGenerator` is base32 decoding in a 32-bit rolling buffer and the
  HMAC-based code.
- **Contest log.** `Cabrillo` is the script that picks complete contacts out of a message log.
- **Palette.** `Palette` interpolates the 256 waterfall colours.

`Bytes`, `Decimals` and `Wrappers` hold what several of them share.

## What came out differently from what one might expect

- The big-endian writer swaps fields of the bext block in place and the reader never swaps
  them back: `BextKept` says exactly which blocks survive. The in-memory struct has ten octets
  for the time of day where EBU Tech 3285 has eight, so blocks of the standard's size are refused
  (`BextAccepted`, `ShortBextRefused`).
- INFO keys with a NUL are overwritten with spaces from there on, so they are not read back under
  their own name (`DictionaryKept`). Each value comes back with one NUL more than it was given.
- A file that was written but never closed is refused (`UnfinishedRefused`).
- The IPFIX sequence number counts spots only; RFC 7011 would have every data record counted,
  receiver records included, and the two agree only by coincidence modulo 2^32 (`SequenceAsRfc`).
- Removing a common value whose key is the name of a configuration deletes that configuration
  (`RemovingCommonKeeps`). Conversely, `remove ("")` inside a group removes the key that bears the
  group's own name too, as QSettings documents it: deleting, renaming, resetting, overwriting or
  selecting a configuration named like a common value loses that value (`CommonKept`), and purging
  one called `CurrentName` loses the current name (`PurgeKeepsName`, `PurgeLosesNamesake`).
- Taking over an old version's name merges the live settings into a configuration that is already
  put aside under the default name; when the old name is the default name, they are lost
  (`TakeOverKeeps`).
- A frequency of 2^32 Hz or more is read back as zero by the frequency commands, and so changes
  when the other VFO is set (`SetThenPoll`).
- Setting the transmit mode on a rig with one mode dropdown switches the receiver over first: an
  unsupported mode leaves it switched over (`SetOtherMode`). A rig with two mode dropdowns reports
  the mode of VFO A even while VFO B is heard (`PolledIsHeard`). When the receiver was moved since
  the last poll, the mode goes to the other VFO, or the receiver moves back (`HeardGetsMode`).
- The comment in `find_dropdown_selection` promises at least a -1; the list can be empty
  (`FindDropdownSelection`). Taking the first entry of an empty list is undefined in the source;
  the model reports it as an unsupported mode.
- A block that would fill the receive buffer exactly is dropped, the comparison being strict
  (`StoredIsFiltered`, `SignalsCountBlocks`).
- Lower-case base32 secrets decode to nothing (`LowerCaseLost`).
- The contest script fails on a line whose tenth and last word is a bare roger (`BreaksAt`); in a
  line that calls all, eleven words can be such ten (`BreaksOnEleven`). It also fails when it looks
  up a frequency that was never stored, which happens exactly when two calls share a dictionary key
  (`LookupsSucceed`), as they can from 1000 MHz on (`FrequencyCanBeUnknown`, `NarrowNoClash`). A line
  one second before the last entry counts as three minutes after it, minus one standing for none
  (`LogIfComplete`).
- The last colour of a palette is not reached (`LastColourMissed`).

## Model

| member | source | states |
|---|---|---|
| RiffReader.CheckedAdd | Audio/BWFFile.cpp:24-39 | succeeds exactly when the sum is a 64-bit integer, with that sum, although it only compares before adding |
| RiffReader.CheckedChunkEnd | Audio/BWFFile.cpp:41-52 | succeeds exactly when the padded chunk ends within the limit, for every offset and 32-bit size, with no overflow case left |
| RiffReader.CheckedPayloadEnd | Audio/BWFFile.cpp:54-58 | succeeds exactly when the payload ends within the limit |
| RiffReader.BextAccepted | Audio/BWFFile.cpp:337-344 | a bext chunk inside the form is refused exactly when it is smaller than the in-memory struct or larger than one bounded read; the 602 octets of version 0 are refused |
| RiffReader.FormatAccepted | Audio/BWFFile.cpp:345-362 | a format chunk inside the form is refused exactly when it is shorter than 16 octets, its codec is neither PCM nor undefined, or channels, rate or sample size are zero or no whole octets |
| RiffReader.InfoStepSafe | Audio/BWFFile.cpp:378-394 | one INFO chunk: what is accepted lies in the list's extent after its predecessors, and the walk stays inside it |
| RiffReader.WaveStepSafe | Audio/BWFFile.cpp:325-398 | one chunk of the WAVE form: nested and in order likewise, and a data extent that is recorded lies in the file |
| RiffReader.OuterStepSafe | Audio/BWFFile.cpp:306-403 | one top-level chunk with all that it holds: nested and in order likewise |
| RiffReader.ReadHeaderSafe | Audio/BWFFile.cpp:295-405 | on every octet string every accepted chunk and so every seek target lies in the file, after the chunks before it and inside its parent's padded extent; success implies that header and data fit the file |
| RiffImage.DescIdFromMeaning | Audio/BWFFile.cpp:124-140 | a stored chunk id never contains a NUL, and equals the four octets it was made from exactly when those contain none |
| RiffImage.JoinCons | Audio/BWFFile.cpp:461-532 | chunks appended one by one with parity padding are the chunks each padded, laid out in a row |
| RiffImage.UpdatedImage | Audio/BWFFile.cpp:450-536 | patching sizes in place and appending bext and LIST to a freshly written file gives the file laid out chunk by chunk with all lengths right |
| RiffRoundTrip.ReadFormatBack | Audio/BWFFile.cpp:345-362 | a valid PCM format is read back from the chunk that is written for it, in either byte order |
| RiffRoundTrip.InfoRead | Audio/BWFFile.cpp:375-394 | reading the written INFO items succeeds and gives each key its value with one NUL, later items winning |
| RiffRoundTrip.ReadBackValue | Audio/BWFFile.cpp:375-394 | of several items with one key the last gives the value |
| RiffRoundTrip.BodyRead | Audio/BWFFile.cpp:321-400 | the reader's walk over the written chunks succeeds with the format, sample extent, bext and INFO values that were written |
| RiffRoundTrip.FileReadBack | Audio/BWFFile.cpp:295-405 | reading a laid-out file succeeds with header length 44, the same samples and all metadata, in either byte order |
| RiffRoundTrip.BextKept | Audio/BWFFile.cpp:468-502 | the bext block on disk is the one given exactly when the file is little-endian or the swapped fields are palindromes |
| RiffRoundTrip.DictionaryLookup | Audio/BWFFile.cpp:506-523 | every INFO key without a NUL reads back with its value and one NUL, and no other key appears |
| RiffRoundTrip.DictionaryKept | Audio/BWFFile.cpp:124-134 | the whole dictionary is read back, each value with one NUL, exactly when no key contains a NUL |
| RiffRoundTrip.UnfinishedRefused | Audio/BWFFile.cpp:407-448 | a header and samples without the final update are refused by the reader |
| RiffRoundTrip.ShortBextRefused | Audio/BWFFile.cpp:295-405 | a finished, well-formed file around a bext block below the size of the struct is refused as a whole |
| RiffRoundTrip.Identifiers | Audio/BWFFile.cpp:313-376 | the identifiers compared with are those of the RIFF format, in ASCII |
| RiffRoundTrip.CanonicalHeader | Audio/BWFFile.cpp:407-448 | the first 44 octets of a finished file, field by field at their offsets: sizes, codec, channels, rate, octets per second and per frame as the format implies, sample size; the samples follow |
| RiffContents.NothingTold | Audio/BWFFile.cpp:337-397 | a chunk with an identifier the reader has no use for, or a list of another kind, neither stops the walk nor changes what is known |
| RiffContents.WellFormedRead | Audio/BWFFile.cpp:295-405 | every file of well-formed chunks, in any number and order, known or not, inside and outside WAVE forms of either byte order, is accepted exactly when it has samples; format, bext block and INFO values are the last ones and the samples lie behind the header of a data chunk |
| RiffContents.ForeignSkipped | Audio/BWFFile.cpp:295-405 | with foreign chunks before, between and after those the program writes, and at top level, a file is read as without them: same format, bext block and INFO values, the samples at their shifted place |
| RiffRoundTrip.RoundTrip | Audio/BWFFile.cpp:295-536 | writing, updating and reading back: even length, the padded RIFF size reaches the end exactly, same format, samples, data extent, bext and INFO values |
| BwfFile.BwfFile.ReadInfoList | Audio/BWFFile.cpp:375-394 | the loop over the file's position does exactly the walk over INFO items |
| BwfFile.BwfFile.ReadInfoItem | Audio/BWFFile.cpp:378-393 | one turn of that loop is the specification's step, refusals included |
| BwfFile.BwfFile.ReadWaveChunk | Audio/BWFFile.cpp:337-395 | what is done with one chunk of the WAVE form, by its id, is the specification's step |
| BwfFile.BwfFile.ReadWave | Audio/BWFFile.cpp:321-400 | the middle loop does exactly the walk over the WAVE form's chunks |
| BwfFile.BwfFile.ReadOuterChunk | Audio/BWFFile.cpp:313-400 | what is done with one top-level chunk is the specification's step |
| BwfFile.BwfFile.ReadChunks | Audio/BWFFile.cpp:306-404 | the outer loop does exactly the walk over the file |
| BwfFile.BwfFile.ReadHeader | Audio/BWFFile.cpp:295-405 | the three nested loops compute the reader's specification, leave the position at the data on success, and keep every accepted chunk nested in the file |
| BwfFile.BwfFile.WriteHeader | Audio/BWFFile.cpp:407-448 | lays 44 octets over the start of the file, in the object's byte order with the given format, or changes nothing |
| BwfFile.BwfFile.AppendBext | Audio/BWFFile.cpp:461-504 | appends the block on an even boundary and leaves the object holding the swapped block |
| BwfFile.BwfFile.AppendInfo | Audio/BWFFile.cpp:506-528 | appends the INFO items with parity padding and patches the list's length afterwards |
| BwfFile.BwfFile.PatchRiffSize | Audio/BWFFile.cpp:530-534 | pads the file to an even length and patches the size at its start |
| BwfFile.BwfFile.UpdateHeader | Audio/BWFFile.cpp:450-536 | patches the data size, appends the metadata, pads, patches the RIFF size and restores the position, or changes nothing |
| BwfFile.WriteThenRead | Audio/BWFFile.cpp:295-536 | an object that wrote any pieces of samples and updated the header, and another that reads its file: same format, samples, extent, bext and dictionary |
| BwfFile.WritePieces | Audio/BWFFile.cpp:407-448 | a new object that writes a header and then samples in any pieces holds the header and the pieces in order |
| Utf8.TextBack | Network/PSKReporterIPFIX.cpp:37 | text encoded in UTF-8 (RFC 3629) is decoded to the same text |
| Utf8.KnownForms | Network/PSKReporterIPFIX.cpp:37 | the examples of section 7 of RFC 3629 |
| Utf8.BoundedIsLongest | Network/PSKReporterIPFIX.cpp:35-50 | what is kept is the longest prefix of whole characters that fits, everything when it fits, and otherwise at most three octets short of the limit |
| Utf8.CutPoint | Network/PSKReporterIPFIX.cpp:43-48 | stepping back over continuation octets from the limit stops exactly at the end of that prefix |
| Utf8.BoundedUtf8 | Network/PSKReporterIPFIX.cpp:35-50 | the truncation loop yields the longest fitting prefix of whole characters |
| Ipfix.OutStream.SetLength | Network/PSKReporterIPFIX.cpp:59-71 | pads to a multiple of four, overwrites the length field in place and stays at the end |
| Ipfix.DescriptorsSize | Network/PSKReporterIPFIX.cpp:73-139 | the two template sets are 112 octets |
| Ipfix.ReceiverSetSize | Network/PSKReporterIPFIX.cpp:141-153 | a receiver set is a multiple of four octets and at most 396 whatever the strings |
| Ipfix.SpotRecordSize | Network/PSKReporterIPFIX.cpp:167-191 | a spot record has between 14 and 78 octets whatever the strings |
| Ipfix.SenderSetLength | Network/PSKReporterIPFIX.cpp:155-159 | the predicted set length is the next multiple of four that holds the set header and the records |
| Ipfix.MessageLength | Network/PSKReporterIPFIX.cpp:161-165 | the predicted message length is the next multiple of four that holds the message header and the sets |
| Ipfix.SizesPredicted | Network/PSKReporterIPFIX.cpp:155-219 | the predictions are the exact sizes of the set and the message that are built |
| Ipfix.BuildReceiverSet | Network/PSKReporterIPFIX.cpp:141-153 | the stream writes the receiver set with its length patched in |
| Ipfix.BuildSpotRecord | Network/PSKReporterIPFIX.cpp:167-191 | the stream writes the record: strings with a length octet, forty bits of frequency, eight of report, thirty-two of time |
| Ipfix.BuildSenderSet | Network/PSKReporterIPFIX.cpp:193-204 | the loop writes the records in order under one set header with its length patched in |
| Ipfix.BuildMessage | Network/PSKReporterIPFIX.cpp:206-219 | the stream writes the message with its length patched in |
| IpfixRoundTrip.MessageLayout | Network/PSKReporterIPFIX.cpp:206-219 | version, length, time, sequence number and domain where section 3.1 of RFC 7011 has them, then the sets; the length field is the message's length |
| IpfixRoundTrip.DescriptorsBack | Network/PSKReporterIPFIX.cpp:73-139 | a decoder that reads the template sets learns the sender and receiver templates and goes on with what follows |
| IpfixRoundTrip.PaddingBelowRecords | Network/PSKReporterIPFIX.cpp:30-33 | padding is always shorter than the shortest record of either template, so it cannot be taken for one |
| IpfixRoundTrip.SpotsBack | Network/PSKReporterIPFIX.cpp:167-204 | decoding concatenated records and padding gives the records of all spots in order |
| IpfixRoundTrip.ReceiverBack | Network/PSKReporterIPFIX.cpp:141-153 | decoding the receiver set's content gives the receiver's one record |
| IpfixRoundTrip.PacketBack | Network/PSKReporterIPFIX.cpp:206-219 | decoding a packet gives its header fields, the receiver record and the spots, given templates in it or before it |
| IpfixRoundTrip.SpotMeaning | Network/PSKReporterIPFIX.cpp:167-191 | under the template that is sent, a collector that looks values up by enterprise 30351 and elements 1, 3, 5, 6, 10 and 11, and by element 150, reads the spot with its strings truncated and its numbers reduced to their field widths, extracted automatically |
| IpfixRoundTrip.ReceiverMeaning | Network/PSKReporterIPFIX.cpp:141-153 | likewise by elements 2, 4, 8, 9 and 13 it reads the receiver, its strings truncated |
| IpfixRoundTrip.PacketRead | Network/PSKReporterIPFIX.cpp:206-219 | the records of a packet are read as its receiver and its spots in order, each under the template its set names |
| IpfixRoundTrip.SpotCarried | Network/PSKReporterIPFIX.cpp:167-191 | a spot arrives unchanged exactly when callsign, locator and mode take at most 32, 16 and 16 octets, frequency is below 2^40, report in eight bits, time in thirty-two |
| IpfixRoundTrip.ReceiverCarried | Network/PSKReporterIPFIX.cpp:141-153 | a receiver arrives unchanged exactly when its strings take at most 32, 16, 80, 128 and 128 octets |
| Packets.SplitJoins | Network/PSKReporterIPFIX.cpp:256-290 | the groups of spots are non-empty and joined give back the spots in order |
| Packets.StaysAhead | Network/PSKReporterIPFIX.cpp:260-283 | one packet filled greedily leaves no more spots over than any other way of filling it |
| Packets.GreedyAhead | Network/PSKReporterIPFIX.cpp:256-292 | starting no further behind than a competing division, the greedy one needs no more packets for the rest |
| Packets.GreedyOptimal | Network/PSKReporterIPFIX.cpp:256-292 | no order-preserving division that respects the limit uses fewer packets, although the first packet has less room |
| Packets.SplitFits | Network/PSKReporterIPFIX.cpp:264-282 | with a limit of at least 608 every group respects it |
| Packets.PayloadLength | Network/PSKReporterIPFIX.cpp:206-293 | a built payload is a multiple of four, of the predicted size, and equal to its length field modulo 2^16 |
| Packets.BuildPackets | Network/PSKReporterIPFIX.cpp:234-293 | the loop with its running counters builds the packets of the greedy division, numbered by the spots before them |
| Packets.Collected | Network/PSKReporterIPFIX.cpp:256-293 | decoding packets one after the other and reading values by their elements gives the receiver in each and the spots of all groups concatenated |
| Packets.Delivered | Network/PSKReporterIPFIX.cpp:234-293 | for every receiver, spots and limit from 608 to 65535: no payload exceeds the limit, and a collector that decodes all of them and reads values by their elements gets the receiver in each and exactly the spots in order |
| PskReporter.CacheDecides | Network/PSKReporter.cpp:382-390 | a cache that forgets after 600 seconds decides as the whole history of accepted spots does |
| PskReporter.AcceptsWhen | Network/PSKReporter.cpp:382-398 | a spot is let through exactly when it is exempt or more than 300 seconds after every spot of that call that was let through |
| PskReporter.CachePurged | Network/PSKReporter.cpp:414-419 | the cache keeps standing for the history through every call and purge |
| PskReporter.Reporter.constructor | Network/PSKReporter.cpp:59-88 | a new reporter satisfies the invariants: nothing cached, queued or sent, no socket, numbers from zero |
| PskReporter.Reporter.SetLocalStation | Network/PSKReporter.cpp:352-364 | the receiver that later packets carry is the one given last |
| PskReporter.Reporter.PurgeCache | Network/PSKReporter.cpp:414-419 | the loop removes exactly the entries older than 600 seconds |
| PskReporter.Reporter.AddRemoteStation | Network/PSKReporter.cpp:366-421 | accepts exactly what the history rule accepts, and the queue is the newest 2048 accepted since it was emptied; the result says whether it had room |
| PskReporter.Reporter.TrimQueue | Network/PSKReporter.cpp:406-412 | the loop leaves the newest 2048 spots and tells whether that was all of them |
| PskReporter.Reporter.Reconnect | Network/PSKReporter.cpp:138-176 | a new socket, of the configured kind, is owed the templates: one time over TCP, three over UDP; nothing was sent over it yet |
| PskReporter.Reporter.DescriptorTimer | Network/PSKReporter.cpp:76-86 | the hourly timer schedules the templates again exactly when the live socket is a UDP one |
| PskReporter.Reporter.HandleSocketError | Network/PSKReporter.cpp:119-136 | an error other than a remote close or a temporary one empties the queue, these leave it |
| PskReporter.Reporter.Flushing | Network/PSKReporter.cpp:193-198 | every 125th report is a flush, counted modulo 2^32 |
| PskReporter.Reporter.DrainQueue | Network/PSKReporter.cpp:290-294 | the loop takes the whole queue, in order, and leaves it empty |
| PskReporter.Reporter.SendReport | Network/PSKReporter.cpp:284-326 | over a connected socket every waiting spot goes out, or when idle nothing; without one nothing changes; numbering and decodability of the session are kept |
| PskReporter.Reporter.SendSpots | Network/PSKReporter.cpp:290-325 | takes the whole queue and writes its packets: as many spots more were sent as waited, numbered on, none larger than 952 octets over UDP or 65535 over TCP, and the session still decodes |
| PskReporter.Reporter.WritePackets | Network/PSKReporter.cpp:320-325 | the reporter's counter stays the number of spots ever sent, modulo 2^32 |
| PskReporter.PacketsNumbered | Network/PSKReporterIPFIX.cpp:260-290 | the local counter gives each packet the number of spots in all earlier packets, modulo 2^32 |
| PskReporter.BuiltNumbered | Network/PSKReporter.cpp:305-325 | so the packets of one more report continue the numbering of all earlier ones |
| PskReporter.BuiltShort | Network/PSKReporter.cpp:302-319 | no packet of a report is larger than its limit |
| PskReporter.BuiltCounted | Network/PSKReporterIPFIX.cpp:256-290 | and they carry exactly as many spots as were reported |
| PskReporter.SessionGrows | Network/PSKReporter.cpp:290-325 | everything sent over one socket decodes, from the templates in it, to exactly the spots reported over it |
| PskReporter.Reporter.Handle | Network/PSKReporter.cpp:59-421 | any event (station, spot, report, new socket, timer, socket error) takes a reporter that is where some events lead to where these and it lead: what was heard, waits, was reported over the socket and was sent are the functions of the events; what was sent only grows |
| PskReporter.Reporter.HandleAll | Network/PSKReporter.cpp:59-421 | from a new reporter, over every sequence of events: the cache stands for all spots heard; the queue is the newest 2048 of those accepted since the last report over a connected socket or socket failure; the number of spots ever sent is that of the batches the events call for, each packet is numbered by the spots before it and has at most 952 octets over UDP, 65535 over TCP; what was sent over the socket decodes to exactly the batches reported since it was made |
| PskReporter.NothingLost | Network/PSKReporter.cpp:119-421 | over every sequence of events the accepted spots are the sent and the waiting ones, in order, exactly when the queue never overflowed and no failing socket found spots waiting |
| PskReporter.SequenceAsRfc | Network/PSKReporter.cpp:320-325 | on any socket of a run the sequence number is the count of data records that section 3.1 of RFC 7011 asks for exactly when the spots sent before the socket was made and the packets sent on it so far are equal in number modulo 2^32; on the first socket when these packets are a multiple of 2^32 |
| SettingsStore.PathInjective | MultiSettings.cpp:40-43 | live, common and put-aside keys never share a path |
| SettingsStore.InGroup | MultiSettings.cpp:540-573 | the group of a configuration holds its keys and no others, even when names extend each other |
| SettingsStore.LiveSettings | MultiSettings.cpp:540-554 | gathering the root group gives the live settings and nothing of the others |
| SettingsStore.OtherSettings | MultiSettings.cpp:540-554 | gathering a configuration's group gives its settings without the place holder |
| SettingsStore.NamesAreChildGroups | MultiSettings.cpp:440 | the child groups are the names of the configurations put aside |
| SettingsStore.RepSet | MultiSettings.cpp:244-253 | setting a string key sets one structured key and disturbs no other |
| SettingsStore.PurgeLosesNamesake | MultiSettings.cpp:792-822 | two stores in which deleting a configuration loses a common value (Splash_v1.7) and the current name (CurrentName) |
| SettingsStore.RepRemoveLive | MultiSettings.cpp:379-385 | removing a root key, which also removes the group of that name, touches no configuration |
| SettingsStore.RepRemoveNamed | MultiSettings.cpp:399-404 | purging a group, like removing the key of its name, removes the configuration and the common value of that name and nothing else |
| Configurations.OnlyTarget | MultiSettings.cpp:575-831 | an operation touches no configuration but its target, never leaves the current name among the alternatives, and switching keeps the set of names and what was left |
| Configurations.OperationDoes | MultiSettings.cpp:360-831 | what every operation is for, by what each name stands for afterwards: a clone has the source's settings, an overwritten configuration the source's, a reset one none, a renamed one its own under the new name only, a deleted one is gone, a write or removal changes its key; no other name changes, and the common values only lose the purged name |
| Configurations.CommonKept | MultiSettings.cpp:360-831 | an operation that does not set or remove a common value keeps all of them exactly when it purges no configuration named like one, and otherwise loses exactly those |
| Configurations.PurgeKeepsName | MultiSettings.cpp:792-822 | a purge keeps the current name exactly when the configuration is not called CurrentName, and the common values exactly when it is not called like one of them |
| Configurations.RemovingCommonKeeps | MultiSettings.cpp:255-266 | removing a common value loses no configuration exactly when none is put aside under its key |
| Configurations.RunKeeps | MultiSettings.cpp:575-831 | over any run of operations that are not about it, a configuration keeps its settings |
| Configurations.ThereAndBack | MultiSettings.cpp:360-421 | switching from A to B, any run there that is not about A, and back restores A as it was when left |
| MultiSettings.CloneNamesDiffer | MultiSettings.cpp:624-632 | the names tried for a clone are all different, so the search cannot cycle |
| MultiSettings.TakeOverKeeps | MultiSettings.cpp:303-326 | what taking over an old version's name makes of any store: its configuration becomes current and live; the live settings are merged over what the default configuration has, or lost when that is the name; kept as they were exactly when nothing was there to be merged; the common value of the old name goes |
| MultiSettings.StartedValid | MultiSettings.cpp:288-357 | after the start the current name is not among the alternatives, exactly unless the name was found or taken for default beside a configuration of that name and no other one was asked for |
| MultiSettings.AskedSwitches | MultiSettings.cpp:344-356 | starting with a configuration asked for makes it current with its settings, and every name stands for what it did; an unknown one changes nothing |
| MultiSettings.MultiSettings.Open | MultiSettings.cpp:288-357 | starting on any store, with a legacy name or a requested configuration or neither, is the matching exchange on the map |
| MultiSettings.MultiSettings.TakeOver | MultiSettings.cpp:306-325 | the old version's configuration becomes live and what was live is merged into the default one |
| MultiSettings.MultiSettings.Bootstrap | MultiSettings.cpp:328-356 | finds the current name or stores the default one, then switches to the requested configuration if there is one |
| MultiSettings.MultiSettings.GetSettings | MultiSettings.cpp:540-554 | the loop over all keys gathers the group's settings |
| MultiSettings.MultiSettings.LoadFrom | MultiSettings.cpp:556-573 | replaces a group's settings key by key, with the place holder that keeps an empty group alive |
| MultiSettings.MultiSettings.PurgeGroup | MultiSettings.cpp:399-404 | a purge removes the configuration and the common value of its name; called CurrentName, it takes the current name |
| MultiSettings.MultiSettings.LoadGroup | MultiSettings.cpp:556-573 | loading a group merges the settings into the configuration of that name and touches nothing else |
| MultiSettings.MultiSettings.Reposition | MultiSettings.cpp:360-421 | the sequence of saves, purges and loads is one exchange on the map, and nothing stays pending |
| MultiSettings.MultiSettings.SetValue | MultiSettings.cpp:225-228 | an application's write between select and exit changes the live settings only |
| MultiSettings.MultiSettings.Remove | MultiSettings.cpp:225-228 | an application's removal changes the live settings only |
| MultiSettings.MultiSettings.CommonValue | MultiSettings.cpp:230-242 | reads the common value, or the default |
| MultiSettings.MultiSettings.SetCommonValue | MultiSettings.cpp:244-253 | sets one common value and no configuration |
| MultiSettings.MultiSettings.RemoveCommonValue | MultiSettings.cpp:255-266 | removes the common value together with a configuration of that name; removing the current name's key loses the current name |
| MultiSettings.MultiSettings.SelectConfiguration | MultiSettings.cpp:575-601 | schedules the exchange with the target as it is now and asks for a restart; unknown and current names do nothing |
| MultiSettings.MultiSettings.Exit | MultiSettings.cpp:459-466 | performs what is pending and tells whether to quit |
| MultiSettings.MultiSettings.FreeName | MultiSettings.cpp:624-632 | ends, for every finite set of configurations, with the first name tried that is neither an alternative nor the current one |
| MultiSettings.MultiSettings.CloneConfiguration | MultiSettings.cpp:604-639 | adds a copy of the source under that name, whichever configuration is current |
| MultiSettings.MultiSettings.PickSource | MultiSettings.cpp:650-669 | the source is the only other configuration, or the one chosen among several, or none |
| MultiSettings.MultiSettings.CloneFrom | MultiSettings.cpp:677-703 | the target gets the source's settings, at once or pending for the current one; the current name is lost exactly when a target put aside is called CurrentName |
| MultiSettings.MultiSettings.CloneIntoConfiguration | MultiSettings.cpp:641-707 | overwrites the target with the chosen or only other source when confirmed, losing the current name in that case only; the current one at the next exit |
| MultiSettings.MultiSettings.ResetConfiguration | MultiSettings.cpp:709-744 | empties the target when confirmed, losing the current name in that case only; the current one at the next exit |
| MultiSettings.MultiSettings.RenameConfiguration | MultiSettings.cpp:746-790 | moves the settings to the new name, losing the current name in that case only; for the current configuration only the name |
| MultiSettings.MultiSettings.DeleteConfiguration | MultiSettings.cpp:792-822 | removes a configuration that is not current, and the common value of its name, when confirmed; the current name is lost exactly when it is called CurrentName |
| MultiSettings.MultiSettings.Perform | MultiSettings.cpp:459-831 | every operation that the menus offer, carried through to the next window, is the map's operation, common values lost to a namesake included; it loses the current name exactly when it purges an alternative called CurrentName |
| MultiSettings.MultiSettings.PerformAll | MultiSettings.cpp:459-831 | every run of operations is the run on the map, up to the first one that loses the current name, if any |
| HrdMessage.AppendU32Le | Transceiver/HRDMessage.cpp:12-18 | appends the four little-endian octets |
| HrdMessage.Make | Transceiver/HRDMessage.cpp:51-72 | builds the frame: size, two magic numbers, zero, the code units and a terminator |
| HrdMessage.Parse | Transceiver/HRDMessage.cpp:74-131 | the checks in order, and the loop over code units, compute the parser's specification on all octet strings |
| HrdMessage.FrameLayout | Transceiver/HRDMessage.cpp:51-72 | the frame octet by octet: size, 0x1234ABCD, 0xABCD1234 and zero with the low octet first, the code units likewise, a terminating zero |
| HrdMessage.CompleteWhen | Transceiver/HRDMessage.cpp:74-131 | which octets hold a whole message, and which are the beginning of one, by the fields at their offsets |
| HrdMessage.PrefixStable | Transceiver/HRDMessage.cpp:74-131 | complete and invalid results do not change with more octets; a partial one names a number of octets that is needed |
| HrdMessage.ParseMake | Transceiver/HRDMessage.cpp:51-131 | parsing a frame gives the text as QString::fromUtf16 reads it, or refuses it above one mebibyte |
| HrdMessage.RoundTrip | Transceiver/HRDMessage.cpp:51-131 | the text comes back unchanged exactly when it does not begin with a byte order mark of either order |
| HrdMessage.MarksObeyed | Transceiver/HRDMessage.cpp:130 | a byte order mark is taken off, a swapped one has the units' octets exchanged |
| HrdMessage.TextUpToNul | Transceiver/HRDTransceiver.cpp:1063-1070 | a prefix without a zero unit that is everything or is followed by one |
| HrdMessage.CutsAtNul | Transceiver/HRDTransceiver.cpp:1063-1070 | so is what the specification cuts off |
| HrdMessage.ReadReply | Transceiver/HRDTransceiver.cpp:1035-1071 | for any division of a reply into non-empty pieces the loop ends with the result of parsing the whole |
| HrdMessage.AnyFragmentation | Transceiver/HRDTransceiver.cpp:1035-1071 | so a made frame in any pieces, with whatever follows it, yields its text cut at the first NUL; a text without a NUL and a leading byte order mark comes back as it is |
| HrdTransceiver.HrdTransceiver.CheckReceiver | Transceiver/HRDTransceiver.cpp:577-597 | on a dual-VFO rig, with receive buttons or a receiver dropdown, finds which VFO is heard |
| HrdTransceiver.HrdTransceiver.SetOtherMode | Transceiver/HRDTransceiver.cpp:602-642 | sets the mode of the VFO not heard and leaves buttons and frequencies as they were; an unsupported mode leaves the receiver where it was exactly when there is a second mode dropdown |
| HrdTransceiver.HrdTransceiver.VisitOther | Transceiver/HRDTransceiver.cpp:612-639 | with one mode dropdown: goes over to the other VFO by receive button or receiver dropdown, sets its mode and comes back; a failing mode leaves it there |
| HrdTransceiver.HrdTransceiver.SetTxFrequency | Transceiver/HRDTransceiver.cpp:644-673 | the VFO not heard gets the frequency, the other one keeps its own as far as it fits 32 bits; on a rig addressed one VFO at a time, by two buttons or by a toggle, it keeps it always, and an unsupported mode leaves the rig on the other VFO |
| HrdTransceiver.HrdTransceiver.SetSplit | Transceiver/HRDTransceiver.cpp:677-736 | makes the transmitter use the VFO not heard, or the one heard, without moving the receiver |
| HrdTransceiver.HrdTransceiver.MoveTransmitter | Transceiver/HRDTransceiver.cpp:694-736 | with TX buttons: the transmitter moves to the VFO not heard, or back, and receiver, modes and frequencies stay |
| HrdTransceiver.HrdTransceiver.SelectReceiver | Transceiver/HRDTransceiver.cpp:700-712 | puts the receiver on the VFO it is taken to be on, by button or dropdown |
| HrdTransceiver.HrdTransceiver.DoTxFrequency | Transceiver/HRDTransceiver.cpp:573-738 | on a dual-VFO rig, with receive buttons or a receiver dropdown: split exactly when the frequency is not zero, that frequency and mode on the VFO not heard, receiver and its mode untouched, whether reversed or not; likewise on a rig addressed one VFO at a time, by two buttons or by a toggle; fails exactly for unsupported modes, and says where that leaves the rig |
| HrdTransceiver.HrdTransceiver.SplitThenPoll | Transceiver/HRDTransceiver.cpp:573-963 | on every rig that has a split button, a split dropdown or an unreadable pair of split buttons, setting and polling reports split exactly when it was asked for |
| HrdTransceiver.HrdTransceiver.DoMode | Transceiver/HRDTransceiver.cpp:740-832 | on a dual-VFO rig, whatever the last poll saw: which VFO gets which mode, where receiver and transmitter end up, and that it fails exactly for unsupported modes; if what it saw still holds, the mode of the VFO heard and, when split, of the other; likewise on a rig addressed one VFO at a time |
| HrdTransceiver.HrdTransceiver.SetOwnMode | Transceiver/HRDTransceiver.cpp:743-750 | sets the mode of the VFO flagged as heard by a dropdown of its own, or by the only one that of the VFO heard |
| HrdTransceiver.HrdTransceiver.SetOtherModeToo | Transceiver/HRDTransceiver.cpp:751-829 | sets the mode of the VFO not flagged; having switched over for it, leaves the receiver on the flagged VFO and the transmitter on the other |
| HrdTransceiver.HrdTransceiver.SwitchOverAndSet | Transceiver/HRDTransceiver.cpp:762-779 | with one mode dropdown: over to the VFO not flagged, its mode set, and to the flagged one, wherever the receiver was |
| HrdTransceiver.HeardGetsMode | Transceiver/HRDTransceiver.cpp:740-832 | with two mode dropdowns the VFO heard gets the mode exactly when what the last poll saw still holds or both modes are set; with one it gets it always, and is still the one heard exactly when that holds or not both are set |
| HrdTransceiver.HrdTransceiver.DoFrequency | Transceiver/HRDTransceiver.cpp:553-571 | on a dual-VFO rig, whatever the last poll saw and with or without a mode: the rig is what setting the mode makes of it with one VFO tuned, and the VFO then heard is at the frequency exactly unless the VFOs were seen reversed, no longer are, and VFO A was not there already; on a rig addressed one VFO at a time it tunes that one and no other |
| HrdTransceiver.HrdTransceiver.Tune | Transceiver/HRDTransceiver.cpp:560-569 | tunes VFO B and rewrites VFO A when reversed, else tunes the VFO heard |
| HrdTransceiver.HrdTransceiver.DoPoll | Transceiver/HRDTransceiver.cpp:850-963 | reports split exactly when the transmitter is on the VFO not heard, and the frequencies by role; with both frequencies below 2^32 what was reported is then in step with the rig, from any state before; passes exactly when the mode shown has an entry |
| HrdTransceiver.HrdTransceiver.PollSplit | Transceiver/HRDTransceiver.cpp:883-939 | finds split and the VFO heard by whichever control the rig has |
| HrdTransceiver.HrdTransceiver.PollFrequencies | Transceiver/HRDTransceiver.cpp:941-955 | reports the frequencies by role, or on a rig addressed one VFO at a time that of the VFO heard unless it transmits |
| HrdTransceiver.HrdTransceiver.PollMode | Transceiver/HRDTransceiver.cpp:957-962 | reports the mode that dropdown A shows and fails exactly when it has no entry |
| HrdTransceiver.SelectionMeans | Transceiver/HRDTransceiver.cpp:386-403 | the mode of a selection is that of the first entry that lists it, none when no entry does |
| HrdTransceiver.ModeComesBack | Transceiver/HRDTransceiver.cpp:376-403 | a mode is set to the first selection of its first entry, which is read back as that mode exactly when no earlier entry lists it |
| HrdTransceiver.HrdTransceiver.ModeThenPoll | Transceiver/HRDTransceiver.cpp:740-963 | so setting a mode and polling reports that mode, where the poll looks at the VFO that is heard |
| HrdTransceiver.PolledIsHeard | Transceiver/HRDTransceiver.cpp:959-962 | that is the mode of the VFO heard exactly when there is one mode dropdown, VFO A is heard, or both show the same |
| HrdTransceiver.HrdTransceiver.SetThenPoll | Transceiver/HRDTransceiver.cpp:573-963 | setting and then polling: split exactly when asked for, the transmit frequency as the other one, receiver selection and frequency unchanged (exactly when below 2^32) |
| HrdTransceiver.HrdTransceiver.Perform | Transceiver/HRDTransceiver.cpp:553-963 | any command or poll that passes keeps what was reported equal to what the rig does |
| HrdTransceiver.HrdTransceiver.PerformAll | Transceiver/HRDTransceiver.cpp:553-963 | after any run of them the reported frequencies and split are those last asked for, are the rig's, and the receiver is where it was |
| HrdTransceiver.FindDropdownSelection | Transceiver/HRDTransceiver.cpp:334-351 | the backward search loop ends with all matching entries, last first, none twice, and none when nothing matches |
| AudioDevice.Store | Audio/AudioDevice.hpp:41-64 | writes one sample of each frame to consecutive places and nothing else |
| AudioDevice.Load | Audio/AudioDevice.hpp:66-90 | writes one frame and advances past it |
| AudioDevice.StoredAsLoaded | Audio/AudioDevice.hpp:41-90 | for every channel, samples loaded into frames are stored from them unchanged |
| AudioDevice.ChannelsStored | Audio/AudioDevice.hpp:41-64 | of interleaved frames, left first, each setting stores its own channel, and the left one for both |
| AudioDevice.ChannelsLoaded | Audio/AudioDevice.hpp:66-90 | each setting loads its own channel and silence into the other, or the same into both |
| Detector.TakeIsFeed | Detector/Detector.cpp:82-120 | taking frames in chunks up to a block's end is taking them one by one |
| Detector.FramesCounted | Detector/Detector.cpp:82-120 | signals times block size plus the frames waiting always counts all frames taken in |
| Detector.WriteKeeps | Detector/Detector.cpp:71-120 | kin never exceeds the buffer and the waiting frames never fill a block |
| Detector.StoredCounted | Detector/Detector.cpp:82-120 | how many samples are stored after so many frames, by a formula in the numbers stored, waiting and written |
| Detector.LaterPeriod | Detector/Detector.cpp:57-125 | a later period runs exactly as the first one, its signals and blocks after the earlier ones, with the filter as the earlier blocks left it |
| Detector.SplitWrite | Detector/Detector.cpp:57-125 | two writes leave the same state as one exactly when a condition on the numbers of samples stored, frames waiting and frames in either write holds beforehand |
| Detector.SplitFits | Detector/Detector.cpp:57-125 | which holds without down-sampling, and otherwise when waiting and new frames fit what remains |
| Detector.SplitCanDiffer | Detector/Detector.cpp:71-80 | it fails in a nearly full buffer that one write into an empty one leaves: two writes of five frames leave other frames waiting than one of ten |
| Detector.NothingMissed | Detector/Detector.cpp:71-80 | with down-sampling the frames a write drops would not have been stored anyway; without, exactly those beyond the buffer are missing |
| Detector.SplitStored | Detector/Detector.cpp:57-125 | the stored samples, though, are the same for two writes and for one, always, and stay so after any further write |
| Detector.SplitsStored | Detector/Detector.cpp:57-125 | however a period's frames are divided over writes, the decoder sees the same samples |
| Detector.SignalsCountBlocks | Detector/Detector.cpp:82-120 | from the start of any period the k-th signal announces k blocks until a down-sampled buffer takes no more, then repeats |
| Detector.StoredDirectly | Detector/Detector.cpp:108-117 | without down-sampling the buffer holds the frames themselves |
| Detector.StoredIsFiltered | Detector/Detector.cpp:87-105 | in any period with down-sampling it holds the filter's outputs for the blocks in order, the filter having had all earlier blocks, up to the last block that leaves it short of full |
| Detector.SampleIs | Detector/Detector.cpp:87-105 | sample by sample: the k-th stored for the j-th block is the filter's k-th output for the blocks up to that one |
| Detector.BlockIs | Detector/Detector.cpp:82-105 | the j-th block is the j-th stretch of frames |
| Detector.Detector.Clear | Detector/Detector.cpp:44-55 | empties buffer and block, keeping what was announced |
| Detector.Detector.SetBlockSize | Detector/Detector.cpp:31-34 | changes the block size and nothing that is stored or waiting, when the frames waiting do not fill the new block already |
| Detector.Detector.RunFilter | Detector/Detector.cpp:94-98 | hands one block to the filter and appends its output to what is stored, within the array |
| Detector.Detector.TakeDown | Detector/Detector.cpp:86-105 | one round of the loop with down-sampling |
| Detector.Detector.EndBlock | Detector/Detector.cpp:91-107 | hands the complete block to the filter while there is room for its output, and announces what is stored |
| Detector.Detector.TakeDirect | Detector/Detector.cpp:107-118 | one round of the loop without down-sampling, storing the frames as they are |
| Detector.Detector.WriteData | Detector/Detector.cpp:57-125 | the loop over arrays, chunk by chunk, leaves exactly the state of taking the accepted frames one by one, restarting when time went back; no store leaves its array |
| OtpGenerator.ShiftIn | otpgenerator.cpp:101 | shifting five bits into a 32-bit integer keeps the low bits right however often it overflowed |
| OtpGenerator.Letter | otpgenerator.cpp:101-106 | one letter adds the bytes and leaves the bits that the bit string calls for |
| OtpGenerator.FromBase32 | otpgenerator.cpp:86-108 | the rolling buffer yields the whole bytes of the concatenated five-bit values, for every string |
| OtpGenerator.RoundTrip | otpgenerator.cpp:86-108 | decoding inverts the encoding of section 6 of RFC 4648, padded or not, for every byte string |
| OtpGenerator.AlphabetIs | otpgenerator.cpp:95-100 | a character stands for its place in the alphabet of RFC 4648 |
| OtpGenerator.OnlyLetters | otpgenerator.cpp:95-100 | and no other character stands for anything |
| OtpGenerator.JunkIgnored | otpgenerator.cpp:99-100 | characters outside that alphabet make no difference wherever they stand |
| OtpGenerator.LowerCaseLost | otpgenerator.cpp:95-100 | a lower-case secret decodes to nothing |
| OtpGenerator.CounterOctets | otpgenerator.cpp:42-50 | the swapped counter taken apart from the low end is its eight octets from the high end |
| OtpGenerator.TruncatedIsDynamic | otpgenerator.cpp:55-59 | the masked and shifted octets are the low 31 bits of the big-endian number at the offset, section 5.3 of RFC 4226 |
| OtpGenerator.GenerateHotp | otpgenerator.cpp:40-67 | the code has exactly the digits asked for and stands for that number modulo the power of ten |
| Cabrillo.KeyDetermines | all2cab.py:74-75 | below 1000 MHz a dictionary key belongs to one call |
| Cabrillo.KeysCollide | all2cab.py:74-75 | above it two stations can share one |
| Cabrillo.FrequencyKnown | all2cab.py:112-113 | in any log about stations none of which, if it can be logged, shares a dictionary key with another, the frequency of a complete contact was stored before it is looked up |
| Cabrillo.ClashFails | all2cab.py:73-113 | any two stations that share a key, the second long enough to be logged, break the script by two ordinary lines |
| Cabrillo.LookupsSucceed | all2cab.py:73-113 | for stations with ordinary calls: every log about them gets by without a failing lookup if and only if no two distinct calls, one of them long enough to be logged, share a key |
| Cabrillo.NarrowNoClash | all2cab.py:74-75 | below 1000 MHz no two calls share a key, so no lookup fails |
| Cabrillo.FrequencyCanBeUnknown | all2cab.py:112-113 | two log lines, 1296 MHz and 296 MHz, after which the lookup fails |
| Cabrillo.ProgressComplete | all2cab.py:106 | a progress value is at least 31 exactly when all five low bits are set |
| Cabrillo.SightingMeans | all2cab.py:50-102 | by the words of a line: whether it is about a contact, with whom, and which milestones it reaches |
| Cabrillo.GridGiven | all2cab.py:63-65 | the grid known of a station is the one it gave last when calling everyone |
| Cabrillo.GridsAre | all2cab.py:24-31 | which four characters are a grid |
| Cabrillo.DirectedCall | all2cab.py:52-60 | in a directed call to everyone the station and its grid are the words after the direction |
| Cabrillo.EntryHasAll | all2cab.py:69-125 | every entry is preceded, since the station's last entry on the band, by a line for each of the five milestones, as the words of the line tell |
| Cabrillo.EntryTells | all2cab.py:107-113 | an entry has the time and the call of the line that completes it, the frequency that was last stored for the call and the exchange it last gave, or blanks |
| Cabrillo.EntriesApart | all2cab.py:117-123 | in a log in order of time two entries for a station on a band are more than 180 seconds apart |
| Cabrillo.SightingsInOrder | all2cab.py:46-48 | a log in order of time has its sightings in order, as the spacing of entries needs |
| Cabrillo.Cabrillo.Heard | all2cab.py:70-89 | a message to me stores frequency and exchange and adds the milestones it reaches |
| Cabrillo.Cabrillo.Sent | all2cab.py:91-102 | a message of mine adds the milestones it reaches |
| Cabrillo.Cabrillo.LogIfComplete | all2cab.py:106-125 | an entry is printed, and the progress forgotten, exactly when the progress is complete and more than three minutes, or minus one second, have passed; the script ends exactly when the progress is complete and the frequency is missing |
| Cabrillo.Cabrillo.Enter | all2cab.py:121-125 | prints the entry, stages it, notes its time and forgets the progress |
| Cabrillo.BreaksAt | all2cab.py:51-62 | for every list of words: the script fails on the line exactly when a bare roger is its tenth and last word, a CQ and the word it is glued to counting as one in a line that calls all |
| Cabrillo.BreaksOnEleven | all2cab.py:51-62 | eleven words that are glued to ten and fail likewise |
| Cabrillo.Cabrillo.ProcessLine | all2cab.py:46-125 | for every line: passes exactly when it neither breaks the parsing nor completes a contact whose frequency is missing, and then dictionaries and output are those of the whole history of sightings; otherwise prints nothing |
| Cabrillo.Run | all2cab.py:46-125 | for every log: the output is what the history up to the first breaking line defines, and it stops exactly there |
| Palette.MakeValid | WFPalette.cpp:39-59 | black to white for no colour, from black for one, an error above 256 |
| Palette.Mixture | WFPalette.cpp:306-309 | every point is a convex combination of two adjacent colours and lies between them |
| Palette.RisingThroughout | WFPalette.cpp:288-310 | a channel that rises over the colours rises along the whole gradient, across joins too |
| Palette.Interpolate | WFPalette.cpp:281-316 | always 256 colours with every index in range, each the point of the polygon through the colours |
| Palette.GradientInRange | WFPalette.cpp:306-310 | no channel leaves the range of the colours given |
| Palette.GradientRises | WFPalette.cpp:288-310 | the 256 colours rise in a channel that rises |
| Palette.GradientMeets | WFPalette.cpp:287-310 | the first colour, and every other one that falls on a point, is met exactly |
| Palette.LastColourMissed | WFPalette.cpp:287-310 | the last colour is not reached except in channels that end level |

## Left out

- Input and output errors: files, sockets and stores never fail half way, so the branches for short reads and writes are not taken.
- RiffRoundTrip.CanonicalHeader: octets per frame and per second follow QAudioFormat's documented definitions, reduced to the widths of their fields.
- BWFFile: open modes, `reset`, `resize`, `close` and the QIODevice forwarding, which hinge on QFile; the accessors of single bext fields.
- RiffRoundTrip.RoundTrip: stated for a file that was just written, whose data size is taken from the file, and for totals below 2^32; `UpdateHeader` itself is proved without these limits.
- The order in which Qt iterates over an INFO dictionary: a parameter, any listing of the dictionary will do.
- Packets.Delivered: limits from 608 to 65535, the smallest that always holds one spot and the largest a length field can hold; `GreedyOptimal` and `BuildPackets` hold for every limit.
- PskReporter: when the network connects, disconnects or fails and when timers fire are events in any order; `check_connection`, which decides when to make a new socket, may so do it at any time. Clock and eclipse calendar are parameters.
- MultiSettings: menus, dialogs, fonts, signals and window geometry; what a dialog answers is a parameter, and menu operations start with nothing pending, as the window is closed otherwise.
- MultiSettings.MultiSettings.PerformAll: ends where an operation costs the current name; what the program does from there to its next start, which `Open` covers, is not followed, nor are the menus of one that started with its current name among the alternatives (`StartedValid` says when).
- SettingsStore: settings keys of the application do not contain "MultiSettings" and names contain no slash, as the source's dialogs and key filter assume; QSettings escaping and the file format are Qt's.
- HrdMessage.RoundTrip: texts above one mebibyte are refused by the parser, as `ParseMake` states; the older unframed protocol version is not modelled.
- HrdTransceiver: finding out at start which controls a rig has; the data mode controls (`set_data_mode`, `get_data_mode`), which only press further buttons; delays, retries and push-to-talk. The contracts speak about rigs with two VFOs, heard by exclusive buttons or by a dropdown and transmitting by exclusive buttons; rigs addressed one VFO at a time, by two buttons or by a toggle; and rigs with a split control of their own. Rigs that have receive buttons and a receiver dropdown at once are modelled without a contract of their own.
- HrdTransceiver.HrdTransceiver.PerformAll: frequencies below 2^32 and runs in which no command fails, the other cases being those of `DoTxFrequency`, `DoMode` and `DoFrequency`.
- Detector.Detector.SetBlockSize: the source takes any size at any time; with more frames waiting than the new block holds its unsigned subtraction in the next write wraps around, and what follows is not modelled.
- Detector: the filter's arithmetic, a function of the blocks it was handed; the clock, a parameter; the buffer is this object's own although the source shares it with the decoder.
- OtpGenerator: HMAC with SHA-1, an arbitrary function with twenty octets; the time-based wrappers, which only divide the time by thirty seconds; big-endian hosts; more than nine digits, which overflow the source's modulus.
- Cabrillo: cutting a line into words and parsing dates and numbers, whose results are inputs; the layout of the printed line.
- Cabrillo.EntriesApart: stated for logs in order of time, without which the three-minute rule does not hold; `Run` is proved for every log.
- Palette: rounding of floating point numbers, which the source guards against by two index corrections; the palette file and the designer.
- Modulator, message clients and servers, network downloads, other rig backends, text decoding and the rest of the user interface.
