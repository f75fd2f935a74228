# Verified models of the protocol drivers

This project models the parts of the repository whose behaviour depends on long histories, and proves what holds in
every history. Nothing was executed; all results are proofs about the models below.

**BACnet requests** (`BacnetTables`, `BacnetValues`, `BacnetMachine`, `BacnetReads`, `BacnetServed`, `BacnetWrites`,
`BacnetDriver`). The driver keeps three tables: the state of each object, the map from invoke id to object, and the
pending writes. `BacnetMachine` is a state machine whose steps are the regions the code runs under its locks. A reader
may hold the lock of the object states across its send and its insertion into the reverse map; any number of handlers
may be between their two regions; answers come in any order, late, or for unknown ids; the stack issues any ids, also
ids that are still mapped; a reset clears the tables one lock at a time. The class `BacnetContext` has the same tables
as fields. Each of its methods is proved to take exactly the steps of the machine that its contract names. What a caller
of `plc_proto_read` gets is proved from the ACKs of the run alone.

The machine takes three facts about a reset from the code around it. The handlers run on the worker thread, and on a
thread that calls `connect` while it looks for the device (`impl/bacnet/src/proto_bacnet_discovery.cc:69-72`). Before
its first clear a reset has stopped and joined the worker thread (`impl/bacnet/src/proto_bacnet_core.cc:426-431`), which
also runs the sweeps. `connect` and `release` hold the driver's mutex for the whole call
(`impl/bacnet/src/proto_bacnet_driver.cc:96-134`), so that no connecting thread runs handlers or starts a worker while a
release resets. And the reset has removed the address bindings and closed the datalinks
(`impl/bacnet/src/proto_bacnet_core.cc:439-446`), so no read is sent while it clears the tables.

**Configuration loaders** (`Yaml`, `Scalars`, `MqttLoader`, `MqttSettings`, `BacnetConfig`, `BacnetLoader`,
`BacnetSettings`). Both loaders read a flat stream of YAML events. They are proved to compute what a recursive walk over
the tree computes, and where they do not, the exact limits are proved. What each setting is after loading is stated
setting by setting, without the loader's own table.

**Configuration file** (`Text`, `ConfigLine`, `ConfigFile`, `ConfigSettings`, `ConfigLoads`, `ConfigUncovered`,
`ConfigRewrite`, `ConfigCut`). Replacing the value of a key in a line is a lens; `config_update` is that lens, line by
line and section by section. `ConfigSettings` says which field is written under which key, and `ConfigLoads` that the
loader reads the written file as the configuration it was written from. `ConfigUncovered` treats the lines in which an
update brings another key to light. `ConfigRewrite` is `config_update` on the file: it is read in pieces of at most 511
characters, each of which counts as a line, and written back as one text, which a second call reads in pieces again.
`ConfigCut` treats the lines that an update makes too long to be read whole.

**JSON payloads** (`Json`, `MqttFormat`, `MqttRoundTrip`). `mqtt_data_format` builds an object in place in a buffer of
1024 characters. `Json` is a parser after RFC 8259, written without regard to the printer; the round trip connects them.

**Bounded queues and logs** (`BoundedFifo`, `Ring`, `MqttRing`, `CircularQueue`, `LogQueue`, `LogPool`, `LogPoolRuns`,
`LogWorker`, `RotatingSink`). The MQTT ring and the log queue are proved to be one FIFO that gives up its oldest item.
The pool of log workers is a state machine over its steps under the queue's mutex. A call that waits is modelled, in the
classes, as one look at the condition it waits for. The rotating sink works on a map from file names to contents, in
which renaming may fail.

**Reconnection** (`Backoff`). The delay between two automatic attempts, in the 32-bit arithmetic of the code.

## What does not hold

The models follow the code. Each item below names an input for which a promise fails and the lemma that says exactly
when it holds.

- The reverse map may point at a key without a state while a reset is between its first two clears: a reset that finds a
  read under way (`BacnetReads.ResetWindowBreaksReverseMap`). In every run with the states' lock free it points back if
  and only if no reset is in that window or it found no id mapped (`BacnetReads.ReverseMapPointsBack`).
- "Active id of k is i" and "i is mapped to k" do not always agree: after an ACK whose data does not decode
  (`BacnetReads.UndecodableAckBreaksInverse`) and after an id is issued again while it is mapped
  (`BacnetReads.ReissuedIdBreaksInverse`). There is no other cause (`BacnetReads.ExactInverseIffNoOrphaning`). A key
  left behind so is never read again without a reset (`BacnetReads.OrphanIsNeverReadAgain`).
- A string ACK whose allocation fails destroys a cache that stays marked valid, and a later read delivers it with
  success (`BacnetServed.FailedAllocationDestroysCache`). A read delivers the value of the last ACK stored if and only
  if no later ACK failed so (`BacnetServed.ReadsAreServed`).
- The MQTT loader's stack overflows in a tree of depth 8 (`MqttLoader.DepthBoundIsSharp`). All trees of a given depth
  are read as the walk reads them if and only if it is at most 7 (`MqttLoader.DepthBound`).
- The BACnet loader stays in an mstp section that comes last, and takes a `port` behind it for the MS/TP port
  (`BacnetLoader.TrailingMstpLeaks`). It computes the walk if and only if mstp does not come last or no pair behind
  bacnet changes an MS/TP setting (`BacnetLoader.LoaderIsWalkUnlessMstpLeaks`).
- The BACnet loader ignores all of bacnet when another protocol with a mapping stands before it
  (`BacnetLoader.SiblingHidesBacnet`). It reads every bacnet section as the walk does if and only if no mapping stands
  beside and before it and no key before it is left waiting for a value (`BacnetLoader.BacnetIsReadIffHarmless`).
- Any value with '#' breaks the second of two updates and the comment behind it: both hold if and only if there is no
  '#' (`ConfigLine.PutPut`; `ConfigLine.PutGet` for reading the value back).
- Applying `config_update` twice may differ from applying it once because a comment is moved out of the buffer: in the
  network section of a file whose lines all fit, the line `port: 1 # interface xxx interface: x` with 463 x has 524
  characters after the first call; the second reads its end as a line of its own and updates `interface`
  (`ConfigCut.MovedCommentIsUpdated`). A line is tame if it holds at most one key, its values hold no marker, the new
  one holds no '#', and its update uncovers no other key. For files of tame lines that were read whole, twice is once if
  and only if each updated line of more than 511 characters, read in pieces and updated, is as it was
  (`ConfigRewrite.ConfigUpdateTwice`); a line cut in its comment is so if and only if its second piece is
  (`ConfigCut.CutLineSurvivesIff`). The hypothesis on such lines is that their pieces lead to no other section than the
  whole line.
- For the same reason the number of lines may grow. The second call reads the lines that the first one wrote if and only
  if each has at most 511 characters (`ConfigRewrite.SecondCallReadsTheLinesIffTheyFit`), and lines of any kind are read
  again as they are if and only if a file can be read as them (`ConfigRewrite.ReadBackIffReadable`).
- A second update of a line may differ from the first because a key is uncovered: in the network section the line
  `broadcast_address: "port" # port: 3` has its comment rewritten (`ConfigUncovered.BroadcastLineUncoversPort`). When an
  update uncovers one other key, and that one's update no third, twice is once if and only if that key stands in the new
  value, is tried later in the section, or has its new value already (`ConfigUncovered.UncoveredKeyDecides`).
- Keys are not escaped, backslashes in texts are not escaped, and infinite or undefined floats are printed as words.
  Each makes an accepted pair unreadable or wrong (`MqttRoundTrip.ThreeLostPairs`), and without these everything reads
  back (`MqttRoundTrip.BuiltReadsBack`).
- With two workers a flush may complete while an earlier message is still being written. Among pools with room the
  guarantee holds exactly for those with one worker (`LogPoolRuns.FlushGuaranteeNeedsOneWorker`).
- A pool whose queue has no room blocks its destructor for good (`LogPoolRuns.NoRoomNeverJoins`); with room it ends with
  all workers stopped (`LogPoolRuns.DestructionEndsJoined`).
- A rotation loses the newest file and the message when a rename fails twice (`RotatingSink.StoppingLosesTheNewest`),
  and only then (`RotatingSink.RotatingFileSink.SinkIt`).
- The back-off delay wraps: with the default interval it is negative after thirty failures
  (`Backoff.DefaultIntervalWraps`). It is the intended one if and only if the product is below 2^31 or wraps to a minute
  or more (`Backoff.DelayIsIntended`).

Where code and comments differ the model follows the code. The comments of `config_update` speak of adding values; it
never adds a line. The ring stores 1024 bytes of a payload and delivers 1023. The header says `config_update` writes the
hot configuration back; it never writes `enabled`.

## Model

| member | source | states |
|---|---|---|
| BacnetReads.ReverseMapPointsBack | impl/bacnet/src/proto_bacnet_core.cc:697-745 | In every run, whenever the states' lock is free: every mapped id is not 0 and is the active id of its key, so no two ids map to one key, if and only if no reset is between its first two clears or it found no id mapped |
| BacnetReads.ResetWindowBreaksReverseMap | impl/bacnet/src/proto_bacnet_core.cc:34-59 | For every key and id, a run of one read and the first clear of a reset after which the id maps to a key without a state |
| BacnetReads.SingleFlight | impl/bacnet/src/proto_bacnet_core.cc:697-745 | In every run and for every key, sends and resolutions alternate, starting with a send, and their parity says whether a request is under way |
| BacnetReads.UnderWayChanges | impl/bacnet/src/proto_bacnet_callbacks.cc:228-258 | A send is possible only for an idle key, a resolution ends exactly one request, and no other step changes whether one is under way |
| BacnetReads.ExactInverseIffNoOrphaning | impl/bacnet/src/proto_bacnet_callbacks.cc:72-101 | At rest the two tables are inverse to each other if and only if, since the states were cleared, no ACK failed to decode and no id was issued while mapped |
| BacnetReads.UndecodableAckBreaksInverse | impl/bacnet/src/proto_bacnet_callbacks.cc:92-101 | For every key and id, a run with one undecodable ACK after which the tables are not inverse |
| BacnetReads.ReissuedIdBreaksInverse | impl/bacnet/src/proto_bacnet_io.cc:108-126 | For any two keys and any id, a run that issues the id twice after which the tables are not inverse |
| BacnetReads.OrphanIsNeverReadAgain | impl/bacnet/src/proto_bacnet_core.cc:697-709 | A key left behind stays so, and no request is sent for it, in every longer run without a reset |
| BacnetServed.CacheHoldsLastAnswer | impl/bacnet/src/proto_bacnet_callbacks.cc:103-136 | In every run the entry of a key has a valid cache exactly when an ACK was stored for it since the last reset; it has that ACK's time and carries its value, or no data if memory failed for a later one |
| BacnetServed.FailedAllocationDestroysCache | impl/bacnet/src/proto_bacnet_callbacks.cc:103-136 | A run of two reads of a text, the second without memory, after which the next read succeeds with a value without data |
| BacnetServed.DestroyedCacheIsDelivered | impl/bacnet/src/proto_bacnet_core.cc:711-745 | After every run with a destroyed cache and no request under way, a read succeeds and delivers it |
| BacnetServed.ReadsAreServed | impl/bacnet/src/proto_bacnet_core.cc:672-750 | After every run, from the ACKs and sends alone: a read is answered from the cache if and only if the strategy is conservative and an ACK was stored less than the expiry ago, in nanoseconds; a request is sent if and only if this is not so, none is in flight and sending works; the return code in every case; and a caller with a buffer gets the value of the last ACK stored, or a value without data if memory failed later |
| BacnetServed.SuccessOnEveryLinkIffFresh | impl/bacnet/src/proto_bacnet_core.cc:679-694 | A read succeeds whatever the link answers if and only if an ACK is fresh |
| BacnetValues.StoredValueCarries | impl/bacnet/src/proto_bacnet_utils.cc:585-678 | What is stored carries the ACK's value: type, truth value, number modulo 2^32, bit pattern, octets or characters; bits 0 to 7 of a bit string of at most 32 bits; only other types are refused |
| BacnetValues.ValueReadsBack | impl/bacnet/src/proto_bacnet_utils.cc:585-678 | Every value in 32 bits other than a bit string reads back as it was |
| BacnetValues.FlagsAreHeld | impl/bacnet/src/proto_bacnet_utils.cc:625-640 | Bit i of the unsigned number is flag i for i below 8 and at most 32 flags, and 0 elsewhere |
| BacnetWrites.WritesAreAccountedFor | impl/bacnet/src/proto_bacnet_io.cc:183-250 | In every run writes sent are, as a multiset, those acknowledged, failed, expired, overwritten, dropped and pending; entries stand under their own ids with positive timeouts and are at most 255 |
| BacnetWrites.RemoveIds | impl/bacnet/src/proto_bacnet_discovery.cc:309-364 | Removing ids from the pending table splits its entries into those kept and those removed |
| BacnetWrites.AddOne | impl/bacnet/src/proto_bacnet_io.cc:227-250 | Registering a write adds it and loses exactly the entry that stood under its id |
| BacnetMachine.InvFinal | impl/bacnet/src/proto_bacnet_callbacks.cc:72-136 | In every run, step by step of every thread, the invariant holds that links states, mappings, the reader and the handlers between their regions |
| BacnetDriver.CleanupIsAnExactFilter | impl/bacnet/src/proto_bacnet_discovery.cc:262-365 | After a pass in a reachable state exactly the mappings are gone whose keys have had no ACK stored for longer than twice the read timeout, and exactly the writes past their own timeouts, in nanoseconds; those keys are timed out with their caches kept, and all else is unchanged |
| BacnetDriver.ThresholdIsLimit | impl/bacnet/src/proto_bacnet_discovery.cc:262-306 | The threshold is twice the read timeout in 32 bits, or 12 s if that is 0 |
| BacnetDriver.BacnetContext.constructor | impl/bacnet/src/proto_bacnet_internal.hpp:427-468 | A new context is the machine's initial state |
| BacnetDriver.BacnetContext.PlcProtoRead | impl/bacnet/src/proto_bacnet_core.cc:617-750 | The result is decided by cache, strategy and link; a send takes the three steps of the reader and anything else changes no table |
| BacnetDriver.BacnetContext.ExecuteReadProperty | impl/bacnet/src/proto_bacnet_io.cc:46-142 | An issued id is mapped to the key; every failure has its status and changes nothing |
| BacnetDriver.BacnetContext.TakeMapping | impl/bacnet/src/proto_bacnet_callbacks.cc:72-84 | Returns what the id was mapped to and removes exactly that mapping |
| BacnetDriver.BacnetContext.HandleReadPropertyAck | impl/bacnet/src/proto_bacnet_callbacks.cc:49-140 | A matched ACK takes its mapping and then stores or, undecodable, drops the value; an unmatched one changes nothing |
| BacnetDriver.BacnetContext.HandleErrorResponse | impl/bacnet/src/proto_bacnet_callbacks.cc:215-321 | A mapped id fails its read with the status of the error code; otherwise the pending write of that id is removed |
| BacnetDriver.ErrorFailsTheRead | impl/bacnet/src/proto_bacnet_callbacks.cc:228-258 | After any run an error for a mapped id removes the mapping and leaves its key idle, with its cache as before and the status that the error code calls for |
| BacnetDriver.BacnetContext.HandleAbortResponse | impl/bacnet/src/proto_bacnet_callbacks.cc:327-399 | A mapped id fails its read; pending writes are left alone |
| BacnetDriver.BacnetContext.HandleWritePropertyAck | impl/bacnet/src/proto_bacnet_callbacks.cc:146-209 | Exactly the pending write of that id is removed |
| BacnetDriver.BacnetContext.ExecuteWriteProperty | impl/bacnet/src/proto_bacnet_io.cc:148-267 | An issued id gets a pending entry with the request's, the configured or the built-in priority and timeout; every failure changes nothing |
| BacnetDriver.PendingItem | impl/bacnet/src/proto_bacnet_io.cc:183-250 | A pending entry always has a positive timeout and a priority |
| BacnetDriver.WriteLivesItsTimeout | impl/bacnet/src/proto_bacnet_io.cc:183-250 | A write sent is pending under its id with the first of the request's, the configured and the built-in priority that is not 0, and a sweep leaves it exactly while its timeout, chosen likewise, has not passed by a full millisecond |
| BacnetDriver.WriteFails | impl/bacnet/src/proto_bacnet_io.cc:148-225 | A write is sent if and only if link, range, binding, conversion and the stack allow it, and the first that does not gives the status |
| BacnetDriver.BacnetContext.CleanupReads | impl/bacnet/src/proto_bacnet_discovery.cc:266-306 | The loop that erases while it iterates ends, and in any order of iteration leaves the filtered tables |
| BacnetDriver.BacnetContext.CleanupWrites | impl/bacnet/src/proto_bacnet_discovery.cc:309-364 | The same for the pending writes and their own timeouts |
| BacnetDriver.BacnetContext.CleanupStaleRequests | impl/bacnet/src/proto_bacnet_discovery.cc:262-365 | One pass is the two sweeps of the machine with the threshold of the configuration |
| BacnetDriver.BacnetContext.Reset | impl/bacnet/src/proto_bacnet_core.cc:34-59 | Clears the three tables in three steps |
| MqttLoader.LoaderIsWalk | impl/mqtt/src/proto_mqtt_utils.c:172-261 | On every mapping tree without sequences, with scalar keys and depth at most 7, the stack machine computes the configuration of the recursive walk |
| MqttLoader.EntriesAreWalk | impl/mqtt/src/proto_mqtt_utils.c:172-261 | Running the entries of a mapping returns to the same stack pointer, stack prefix and empty key, with the walk's configuration |
| MqttLoader.DepthBoundIsSharp | impl/mqtt/src/proto_mqtt_utils.c:172-261 | For every greater depth a tree whose configuration differs from the walk's |
| MqttLoader.DepthBound | impl/mqtt/src/proto_mqtt_utils.c:172-261 | All mapping trees of depth at most d are read as the walk reads them if and only if d is at most 7 |
| MqttLoader.ChainOverflows | impl/mqtt/src/proto_mqtt_utils.c:186-212 | What the full stack does to a chain of nested mappings |
| MqttLoader.LoadMqttConfig | impl/mqtt/src/proto_mqtt_utils.c:152-274 | The loop computes the machine's run up to the end of the stream |
| MqttSettings.LoadedSettings | impl/mqtt/src/proto_mqtt_utils.c:152-274 | For every document of depth at most 7, each of the 13 settings is the last text given for its name in its place, cut or converted, or its built-in value; the return code; and the defaults of the topics |
| MqttSettings.SettingOfEntries | impl/mqtt/src/proto_mqtt_utils.c:213-245 | A setting decided by its name and place alone is, after any tree, what the last such pair says |
| BacnetLoader.LoaderIsWalk | impl/bacnet/src/proto_bacnet_utils.cc:261-457 | On every document with nothing but protocols, bacnet and section blocks, in any order and with mstp anywhere, the machine without a stack computes the configuration of the walk |
| BacnetLoader.LoadedBehindBacnet | impl/bacnet/src/proto_bacnet_utils.cc:261-457 | With harmless entries before and beside bacnet and pairs behind it, what is loaded is the walk of the blocks, and then of the pairs behind as MS/TP settings exactly if the last block is mstp |
| BacnetLoader.LoaderIsWalkUnlessMstpLeaks | impl/bacnet/src/proto_bacnet_utils.cc:432-446 | On such documents the machine computes the walk if and only if the last block is not mstp or, for each MS/TP setting, the last pair behind bacnet with its key has the value already set |
| BacnetLoader.BacnetIsReadIffHarmless | impl/bacnet/src/proto_bacnet_utils.cc:261-457 | All section blocks are read as the walk reads them if and only if the entries before protocols leave no key waiting and those before bacnet are scalars only and leave none waiting, for any entries, however nested, without the two names |
| BacnetLoader.SiblingHidesBacnet | impl/bacnet/src/proto_bacnet_utils.cc:432-446 | A document with an empty mapping before bacnet, of which nothing is loaded |
| BacnetLoader.PairsAreHarmless | impl/bacnet/src/proto_bacnet_utils.cc:261-457 | Pairs with keys of their own before protocols and before bacnet meet the condition |
| BacnetLoader.BlocksAreWalk | impl/bacnet/src/proto_bacnet_utils.cc:261-457 | Any run of section blocks leaves the machine ready for the next one with the walk's configuration |
| BacnetLoader.TrailingMstpLeaks | impl/bacnet/src/proto_bacnet_utils.cc:432-446 | For every text, a document in which a pair behind a trailing mstp section is taken for the MS/TP port |
| BacnetLoader.MstpWalk | impl/bacnet/src/proto_bacnet_utils.cc:261-457 | MS/TP pairs set each setting to what the last pair with its key says, and change nothing else |
| BacnetLoader.LoadedConfigIsGuarded | impl/bacnet/src/proto_bacnet_utils.cc:201-457 | Whatever the file holds, timeouts, default priority, reconnect fields and polling interval are not 0 |
| BacnetLoader.LoadConfig | impl/bacnet/src/proto_bacnet_utils.cc:194-473 | The loop computes the machine's run up to the end of the stream |
| BacnetSettings.LoadedSettings | impl/bacnet/src/proto_bacnet_utils.cc:194-473 | For every document of section blocks, each of the 24 settings is the last text given for its key in its section, converted, or its built-in value |
| BacnetSettings.SettingOfBlocks | impl/bacnet/src/proto_bacnet_utils.cc:318-430 | A setting decided by its key and section alone is, after any blocks, what the last such pair says |
| Scalars.NumeralReads | impl/mqtt/src/proto_mqtt_utils.c:219-230 | A numeral reads as its number, behind blanks, with or without a sign and whatever follows its digits, and as the nearest number beyond 64 bits |
| Scalars.AtoiReads | impl/mqtt/src/proto_mqtt_utils.c:219-230 | A numeral in the range of an `int` reads as its number |
| Scalars.UnsignedReads | impl/bacnet/src/proto_bacnet_utils.cc:318-430 | A printed number reads back in every field of 8, 16 or 32 bits that it fits |
| Scalars.FlagReads | impl/mqtt/src/proto_mqtt_utils.c:144-150 | The words for true and false in any case, 1 and 0, and the given value for all else |
| Yaml.DocumentEnds | impl/mqtt/src/proto_mqtt_utils.c:172-182 | A flattened tree ends the stream once, after all its events |
| ConfigLine.UpdateLine | impl/bacnet/src/proto_bacnet_utils.cc:766-802 | Gives the updated line of the lens when the key, its colon and a value or comment are found, and the same line otherwise |
| ConfigLine.PutGet | impl/bacnet/src/proto_bacnet_utils.cc:766-802 | The written value reads back if and only if it holds no '#', does not start with a colon, blank or tab and does not end in a blank |
| ConfigLine.PutPut | impl/bacnet/src/proto_bacnet_utils.cc:766-802 | A second update gives what it would have given alone if and only if the first value held no '#'; so repeating an update is a no-op |
| ConfigLine.IndentAndCommentSurvive | impl/bacnet/src/proto_bacnet_utils.cc:766-802 | All up to the key's end survives byte for byte, and so does the comment when the value holds no '#' |
| ConfigLine.PutParse | impl/bacnet/src/proto_bacnet_utils.cc:766-802 | An update leaves the first occurrence of the key where it was |
| ConfigLine.SplitUnique | impl/bacnet/src/proto_bacnet_utils.cc:776-788 | Gap, value and comment of a line are unique |
| ConfigLine.CommentGrows | impl/bacnet/src/proto_bacnet_utils.cc:786-801 | A '#' in the value makes the comment longer |
| ConfigLine.UpdatedLayout | impl/bacnet/src/proto_bacnet_utils.cc:786-801 | In an updated line a blank and the value follow the colon, and the comment stands in column 35 or behind two blanks |
| ConfigFile.UpdateEveryLine | impl/bacnet/src/proto_bacnet_utils.cc:804-924 | The loop rewrites the lines in place to the updated lines, section by section |
| ConfigFile.UpdateInSection | impl/bacnet/src/proto_bacnet_utils.cc:829-923 | The chain of updates of a section on one line |
| ConfigFile.LineAt | impl/bacnet/src/proto_bacnet_utils.cc:804-923 | Each line read is updated on its own, in the section the lines up to it led to; there are as many as before and in their order |
| ConfigFile.OtherLinesStay | impl/bacnet/src/proto_bacnet_utils.cc:829-923 | A line read that holds no key of its section stays byte for byte |
| ConfigFile.SameWords | impl/bacnet/src/proto_bacnet_utils.cc:808-824 | An update neither adds nor removes a marker or key that stands in neither value |
| ConfigFile.NoNewKey | impl/bacnet/src/proto_bacnet_utils.cc:766-802 | A key that an updated line holds, the original line held |
| ConfigFile.TameTwice | impl/bacnet/src/proto_bacnet_utils.cc:804-923 | Updating a line twice is updating it once, and its section stays, when it holds at most one key, its values hold no marker, its new value no '#', and its update uncovers no other key |
| ConfigFile.PlainValuesAreAlone | impl/bacnet/src/proto_bacnet_utils.cc:766-802 | An update uncovers no key when neither the old nor the new value holds one of the other keys |
| ConfigFile.UpdateTwice | impl/bacnet/src/proto_bacnet_utils.cc:804-923 | The same for all lines in memory, for any markers and keys that are words |
| ConfigRewrite.ConfigUpdateTwice | impl/bacnet/src/proto_bacnet_utils.cc:731-963 | On a file of tame whole lines, twice is once if and only if each updated line of more than 511 characters, read in pieces, updated and written, is as it was; so it is when all fit |
| ConfigRewrite.ConfigUpdate | impl/bacnet/src/proto_bacnet_utils.cc:731-1000 | Reads the file in pieces, updates them and gives the text that is written; without a configuration, a file or the means to write it each has its error |
| ConfigRewrite.ReadPieces | impl/bacnet/src/proto_bacnet_utils.cc:747-751 | The reading loop gives the pieces of the file |
| ConfigRewrite.WriteLines | impl/bacnet/src/proto_bacnet_utils.cc:961-963 | The writing loop gives the lines one after the other |
| ConfigRewrite.TakenStops | impl/bacnet/src/proto_bacnet_utils.cc:747-751 | A piece ends at the first line break, at the end of the file or after 511 characters, and nowhere else |
| ConfigRewrite.OnlyNulsAreLost | impl/bacnet/src/proto_bacnet_utils.cc:747-751 | Reading and writing gives the file back if and only if it holds no NUL |
| ConfigRewrite.ReadBackIffReadable | impl/bacnet/src/proto_bacnet_utils.cc:747-751 | Any lines written are read again as they are if and only if each is a piece: 1 to 511 characters, no NUL, no line break before its end, and only the last shorter without one |
| ConfigRewrite.SecondCallReadsTheLinesIffTheyFit | impl/bacnet/src/proto_bacnet_utils.cc:747-751 | For a file whose lines were read whole, the second call reads what the first wrote, and as many lines, if and only if each updated line has at most 511 characters; it never reads fewer |
| ConfigRewrite.ReadableIsRewrittenOnce | impl/bacnet/src/proto_bacnet_utils.cc:731-963 | A file of tame lines whose updated lines are read again as they are is rewritten only once, whole or not |
| ConfigRewrite.SameTextIffSameLines | impl/bacnet/src/proto_bacnet_utils.cc:961-963 | Whole lines replaced by texts that end as they do give the same file only if each is replaced by itself |
| ConfigCut.CutLineSurvivesIff | impl/bacnet/src/proto_bacnet_utils.cc:766-802 | A tame line too long after its update, with its comment starting in the first piece, is left as it is by the second call if and only if its second piece is |
| ConfigCut.TameLength | impl/bacnet/src/proto_bacnet_utils.cc:766-802 | The length of a tame line after its update, from the place of the colon, the value and the comment |
| ConfigCut.MovedCommentIsUpdated | impl/bacnet/src/proto_bacnet_utils.cc:747-802 | For every configuration with an interface name without p and a port but no broadcast address, a file of two tame lines that fit, a header and a line of the port, which a second call changes again, reading more lines |
| ConfigCut.NetworkIsHeader | impl/bacnet/src/proto_bacnet_utils.cc:816-817 | The line `network:` is such a header |
| ConfigFile.LayoutIsSound | impl/bacnet/src/proto_bacnet_utils.cc:808-923 | All markers and keys of the code are words |
| ConfigFile.NumeralsAreClean | impl/bacnet/src/proto_bacnet_utils.cc:829-923 | Numeric values meet the conditions of updating twice by themselves |
| ConfigSettings.SettingIsWritten | impl/bacnet/src/proto_bacnet_utils.cc:804-923 | In every file a line that holds the key of a setting of its section gets the numeral or quoted text of that setting's field, for all 18 settings; it reads back unless it holds '#'; and the line stays byte for byte when the field is 0 or empty, except the cache strategy, which is always written |
| ConfigSettings.SectionIsHeader | impl/bacnet/src/proto_bacnet_utils.cc:804-824 | The section of a line is that of the last header up to it; in a line with several, the first in a fixed order of seven counts |
| ConfigSettings.UpdatesAreAsked | impl/bacnet/src/proto_bacnet_utils.cc:829-923 | In each section each key is asked for once at most, with the text of its field |
| ConfigLoads.WrittenSettingsLoad | impl/bacnet/src/proto_bacnet_utils.cc:731-923 | Any file with a line for each of the 18 settings, in any order and layout, once updated with a configuration that gives every setting, is loaded as this configuration |
| ConfigUncovered.UncoveredKeyDecides | impl/bacnet/src/proto_bacnet_utils.cc:829-923 | A line holds one key, its update uncovers one other, and that one's update no third: twice is once if and only if the uncovered key stands in the new value, is tried later in the section, or has its new value already |
| ConfigUncovered.UncoveredPlaces | impl/bacnet/src/proto_bacnet_utils.cc:766-802 | A key that an update uncovers stands in the new value or in the comment and not in both |
| ConfigUncovered.ValueIsRestored | impl/bacnet/src/proto_bacnet_utils.cc:766-802 | What an update does inside the value of another key is undone by that key's update |
| ConfigUncovered.OnlyCommentChanges | impl/bacnet/src/proto_bacnet_utils.cc:766-802 | Updating a key that stands in the comment changes nothing before the comment and leaves it a comment |
| ConfigUncovered.BroadcastLineUncoversPort | impl/bacnet/src/proto_bacnet_utils.cc:860-873 | In the network section of every configuration with a port and a broadcast address without the letter p or '#', and no interface name, a line that a second update changes again |
| MqttFormat.MqttDataFormat | impl/mqtt/src/plc_mqtt_entry.c:158-227 | The buffer stays terminated within 1024 characters and holds the specified string, for every key, type and value and every error |
| MqttFormat.InitializeObject | impl/mqtt/src/plc_mqtt_entry.c:127-136 | An empty buffer becomes "{}" and any other is left alone |
| MqttFormat.EscapeText | impl/mqtt/src/plc_mqtt_entry.c:200-212 | The loop over the local buffer writes the escaped text and never leaves it |
| MqttFormat.AppendBeforeClosingBrace | impl/mqtt/src/plc_mqtt_entry.c:139-156 | The new member stands before the closing brace, or the buffer is unchanged when it is no object or has no room |
| MqttRoundTrip.BuiltReadsBack | impl/mqtt/src/plc_mqtt_entry.c:158-227 | After any calls on an empty buffer a JSON parser returns exactly the accepted pairs in order if and only if every accepted key is plain, every kept text is free of backslashes and every float is finite |
| MqttRoundTrip.BadPairIsLost | impl/mqtt/src/plc_mqtt_entry.c:158-227 | A call that is accepted with a pair outside that condition makes an object that does not read back |
| MqttRoundTrip.ThreeLostPairs | impl/mqtt/src/plc_mqtt_entry.c:172-216 | A key with a quotation mark, a text with a backslash and an infinite float are accepted and do not read back |
| MqttRoundTrip.BuiltIsRender | impl/mqtt/src/plc_mqtt_entry.c:158-227 | After any calls the buffer is empty or the object of exactly the accepted pairs |
| MqttRoundTrip.FailureChangesNothing | impl/mqtt/src/plc_mqtt_entry.c:158-227 | A failed call leaves the buffer as it was, or "{}" if it was empty |
| MqttRoundTrip.CallIsAcceptedIff | impl/mqtt/src/plc_mqtt_entry.c:139-227 | The return code of any call after any others: success if and only if the key is not empty, a datum is given, its text has less than 256 characters and the object with it less than 1024; each refusal has its own code |
| MqttRoundTrip.OnlyObjectsGrow | impl/mqtt/src/plc_mqtt_entry.c:139-156 | A member is added to nothing but text in braces |
| MqttRoundTrip.LongestPrefixKept | impl/mqtt/src/plc_mqtt_entry.c:200-212 | The text written is the escaped longest prefix that fits, without control characters, and never ends inside an escape pair |
| MqttRoundTrip.KeyReadsBack | impl/mqtt/src/plc_mqtt_entry.c:172-216 | A key reads back exactly when it needs no escaping |
| MqttRoundTrip.TextReadsBack | impl/mqtt/src/plc_mqtt_entry.c:196-216 | A text without control characters reads back exactly when it holds no backslash |
| MqttRoundTrip.NumberReadsBack | impl/mqtt/src/plc_mqtt_entry.c:173-188 | Integers and fixed-point numerals are JSON numbers and read back whole |
| MqttRoundTrip.NumeralStandsForInt | impl/mqtt/src/plc_mqtt_entry.c:173-180 | The numeral printed for an integer stands for that integer |
| MqttRoundTrip.NumeralStandsForFloat | impl/mqtt/src/plc_mqtt_entry.c:181-188 | The numeral of a float is its sign, its whole part and six digits that stand for its millionths |
| MqttRoundTrip.NonFiniteFails | impl/mqtt/src/plc_mqtt_entry.c:181-188 | An infinite or undefined float is no JSON value |
| MqttRoundTrip.MemberReadsBack | impl/mqtt/src/plc_mqtt_entry.c:172-216 | A member reads back exactly when its key and value do |
| MqttRoundTrip.RenderReadsBack | impl/mqtt/src/plc_mqtt_entry.c:139-227 | An object reads back exactly when all its members do |
| MqttRing.MqttContext.MessageArrived | impl/mqtt/src/proto_mqtt_callbacks.c:80-132 | The ring takes the message, cut to 127 characters of topic and 1024 bytes of payload, as the FIFO of capacity 100 does |
| MqttRing.MqttContext.Insert | impl/mqtt/src/proto_mqtt_callbacks.c:91-121 | Writing at the tail, after moving the head of a full ring, is the FIFO's enqueue |
| MqttRing.MqttContext.ProtoRead | impl/mqtt/src/proto_mqtt_core.c:95-162 | A read succeeds only with the connection up and a message waiting, and removes the oldest; every other read has its status and leaves ring and buffers as they were |
| MqttRing.MqttContext.ProtoConnect | impl/mqtt/src/proto_mqtt_core.c:333-387 | A connection is started only from idle or disconnected and only when the library accepts |
| MqttRing.MqttContext.Remove | impl/mqtt/src/proto_mqtt_core.c:139-153 | The caller gets the oldest message's topic and as much payload as fits before a zero |
| MqttRing.DeliveredPayload | impl/mqtt/src/proto_mqtt_core.c:142-149 | Payloads of up to 1023 bytes pass byte for byte, longer ones as their first 1023 |
| MqttRing.WindowEnqueue | impl/mqtt/src/proto_mqtt_callbacks.c:91-121 | Slots and indices modulo 100 behave as the FIFO |
| MqttRing.ArrivalsAreAccountedFor | impl/mqtt/src/proto_mqtt_callbacks.c:91-121 | Over all arrivals and reads of a context, arrivals are delivered, dropped and waiting, what waits is the newest of them and deliveries are an in-order subsequence |
| BoundedFifo.QueueIsSuffixOfLog | impl/mqtt/src/proto_mqtt_callbacks.c:91-121 | What waits is always the newest items pushed, in order, and never more than the capacity |
| BoundedFifo.DeliveredIsSubsequence | impl/mqtt/src/proto_mqtt_core.c:139-153 | What is popped is an in-order subsequence of what is pushed |
| BoundedFifo.PushesAreAccountedFor | 3rdparty/spdlog/include/spdlog/details/circular_q.h:46-57 | Every item pushed is popped, given up or waiting and only one of these, and only items older than a full queue are given up |
| BoundedFifo.NothingLost | 3rdparty/spdlog/include/spdlog/details/mpmc_blocking_q.h:31-38 | When nothing was given up, popped followed by waiting is pushed |
| BoundedFifo.KeptIsDelivered | 3rdparty/spdlog/include/spdlog/details/circular_q.h:46-57 | What is popped is what has left the queue without the places given up, in order |
| CircularQueue.CircularQ.constructor | 3rdparty/spdlog/include/spdlog/details/circular_q.h:28-31 | An empty queue with one slot more than its capacity |
| CircularQueue.CircularQ.Disabled | 3rdparty/spdlog/include/spdlog/details/circular_q.h:25-26 | An empty queue without slots |
| CircularQueue.CircularQ.PushBack | 3rdparty/spdlog/include/spdlog/details/circular_q.h:46-57 | A bounded FIFO of the requested capacity, including 0, that counts what it gives up; a disabled queue ignores the push |
| CircularQueue.CircularQ.PopFront | 3rdparty/spdlog/include/spdlog/details/circular_q.h:81-83 | Removes the oldest item |
| CircularQueue.CircularQ.Front | 3rdparty/spdlog/include/spdlog/details/circular_q.h:59-63 | The oldest item |
| CircularQueue.CircularQ.Size | 3rdparty/spdlog/include/spdlog/details/circular_q.h:65-72 | The number of items, on both sides of the wrap |
| CircularQueue.CircularQ.At | 3rdparty/spdlog/include/spdlog/details/circular_q.h:74-79 | The item of an index counted from the oldest |
| CircularQueue.CircularQ.Empty | 3rdparty/spdlog/include/spdlog/details/circular_q.h:85 | True exactly when there are no items |
| CircularQueue.CircularQ.Full | 3rdparty/spdlog/include/spdlog/details/circular_q.h:87-93 | True exactly when the queue is enabled and holds its capacity |
| CircularQueue.CircularQ.MoveFrom | 3rdparty/spdlog/include/spdlog/details/circular_q.h:99-112 | The contents and counter move over and the other queue is left disabled and empty |
| Ring.WindowAdd | 3rdparty/spdlog/include/spdlog/details/circular_q.h:46-57 | Writing behind the last item around the end of the buffer appends it |
| LogQueue.MpmcBlockingQueue.Enqueue | 3rdparty/spdlog/include/spdlog/details/mpmc_blocking_q.h:30-38 | One look at the wait condition: with room the message is added and nothing is given up, without room nothing changes and the wait goes on |
| LogQueue.MpmcBlockingQueue.EnqueueNowait | 3rdparty/spdlog/include/spdlog/details/mpmc_blocking_q.h:40-47 | The message is always added, if need be for the oldest one |
| LogQueue.MpmcBlockingQueue.EnqueueIfHaveRoom | 3rdparty/spdlog/include/spdlog/details/mpmc_blocking_q.h:49-64 | The message is added if there is room and counted as discarded otherwise |
| LogQueue.MpmcBlockingQueue.Dequeue | 3rdparty/spdlog/include/spdlog/details/mpmc_blocking_q.h:81-90 | One look at the wait condition: the oldest message, removed, or none from an empty queue and the wait goes on |
| LogQueue.MpmcBlockingQueue.DequeueFor | 3rdparty/spdlog/include/spdlog/details/mpmc_blocking_q.h:66-79 | The oldest message, removed, or none and no change exactly when the queue is empty to the last |
| LogQueue.PushesAreAccountedFor | 3rdparty/spdlog/include/spdlog/details/mpmc_blocking_q.h:31-90 | Over all calls pushes are pops, size and the overrun counter together; without overruns dequeued followed by queued is enqueued |
| LogPool.InvFinal | 3rdparty/spdlog/include/spdlog/details/thread_pool-inl.h:45-129 | In every run terminate messages come last in the log and are never given up, stopped workers are as many as terminate messages taken, and dequeued is finished and in hand |
| LogPoolRuns.PostsAreAccountedFor | 3rdparty/spdlog/include/spdlog/details/thread_pool-inl.h:84-94 | Posts are accepted, discarded or about to be counted; accepted messages are dequeued, given up or waiting |
| LogPoolRuns.PostOutcome | 3rdparty/spdlog/include/spdlog/details/mpmc_blocking_q.h:31-64 | After any run: when each kind of post can be made, when it adds its message, when it is discarded and when it costs the oldest message |
| LogPoolRuns.BlockingLosesNothing | 3rdparty/spdlog/include/spdlog/details/mpmc_blocking_q.h:31-38 | With blocking posts all messages are accepted in order and none is given up |
| LogPoolRuns.AllBeforeTheFirstTerminate | 3rdparty/spdlog/include/spdlog/details/thread_pool-inl.h:104-129 | Once a worker has taken a terminate message, each earlier message has been dequeued or given up and not both |
| LogPoolRuns.DequeuedInOrder | 3rdparty/spdlog/include/spdlog/details/thread_pool-inl.h:104-129 | What has been dequeued is what was accepted, in order and at most once, and then terminate messages |
| LogPoolRuns.JoinedPoolIsDrained | 3rdparty/spdlog/include/spdlog/details/thread_pool-inl.h:45-56 | After the join the queue is empty, each worker took one terminate message, its last, and all else dequeued was processed |
| LogPoolRuns.JoinedPoolHasProcessedAll | 3rdparty/spdlog/include/spdlog/details/thread_pool-inl.h:45-56 | With blocking posts a joined pool has processed every message posted exactly once, with one worker in the order of posting |
| LogPoolRuns.OneWorkerKeepsOrder | 3rdparty/spdlog/include/spdlog/details/thread_pool-inl.h:96-129 | A single worker finishes messages in the order of the queue |
| LogPoolRuns.OneWorkerFlush | 3rdparty/spdlog/include/spdlog/details/thread_pool-inl.h:113-117 | With one worker a completed flush means that all earlier messages not given up were processed, each as often as it was accepted |
| LogPoolRuns.FlushGuaranteeNeedsOneWorker | 3rdparty/spdlog/include/spdlog/details/thread_pool-inl.h:113-117 | For pools with room, this holds in all runs if and only if there is one worker |
| LogPoolRuns.DestructionIsBounded | 3rdparty/spdlog/include/spdlog/details/thread_pool-inl.h:45-56 | No continuation of a run under destruction is longer than the work left |
| LogPoolRuns.DestructionEndsJoined | 3rdparty/spdlog/include/spdlog/details/thread_pool-inl.h:45-56 | With room for a message, when no step is left every worker has stopped, in whatever order steps were taken |
| LogPoolRuns.NoRoomNeverJoins | 3rdparty/spdlog/include/spdlog/details/mpmc_blocking_q.h:31-38 | Without room no terminate message is ever posted and the workers never stop |
| LogWorker.ThreadPool.PostAsyncMsg | 3rdparty/spdlog/include/spdlog/details/thread_pool-inl.h:84-94 | Each policy adds the message, counts it, or goes on waiting, exactly as the room in the queue says |
| LogWorker.ThreadPool.ProcessNextMsg | 3rdparty/spdlog/include/spdlog/details/thread_pool-inl.h:104-129 | One message is taken and logged or flushed, and the worker goes on unless it was a terminate message; without a message nothing changes and the wait goes on |
| LogWorker.ThreadPool.WorkerLoop | 3rdparty/spdlog/include/spdlog/details/thread_pool-inl.h:96-99 | Processes all ahead of the first terminate message in order and leaves all behind it; it stops exactly if there is one, and otherwise has emptied the queue and waits |
| LogWorker.AheadAndBehind | 3rdparty/spdlog/include/spdlog/details/thread_pool-inl.h:96-99 | A queue with a terminate message is what is ahead of it, the message and what is behind it |
| RotatingSink.OnlyTheOldestIsGivenUp | 3rdparty/spdlog/include/spdlog/sinks/rotating_file_sink-inl.h:102-131 | A rotation gives up the oldest file at most and keeps all else in order, whatever gaps the numbering has |
| RotatingSink.RotatingFileSink.constructor | 3rdparty/spdlog/include/spdlog/sinks/rotating_file_sink-inl.h:27-50 | Opening for appending adds nothing, loses nothing and touches no other file |
| RotatingSink.RotatingFileSink.SinkIt | 3rdparty/spdlog/include/spdlog/sinks/rotating_file_sink-inl.h:72-90 | The files joined from the oldest to the newest are always a suffix of initial contents and messages; they rotate exactly when a non-empty newest file would overflow; the call fails exactly when a file that has to move meets a target at which renaming fails twice, and then message and newest file are lost |
| RotatingSink.RotatingFileSink.Rotate | 3rdparty/spdlog/include/spdlog/sinks/rotating_file_sink-inl.h:102-131 | Succeeds exactly when no file that has to move meets a target at which renaming fails twice; then every file is one place up and the newest is empty; otherwise exactly the newest file's content is lost besides the oldest's; no other file is touched |
| RotatingSink.RotatingFileSink.RenameFile | 3rdparty/spdlog/include/spdlog/sinks/rotating_file_sink-inl.h:133-141 | The target is removed; if renaming works it holds what the source held and the source is gone; all else is unchanged |
| RotatingSink.RotatingFileSink.RenameOrRetry | 3rdparty/spdlog/include/spdlog/sinks/rotating_file_sink-inl.h:112-125 | A failed renaming is tried once more; it fails exactly when both fail, and then the target is gone |
| RotatingSink.StoppingLosesTheNewest | 3rdparty/spdlog/include/spdlog/sinks/rotating_file_sink-inl.h:116-123 | A rotation stopped at any place gives up the oldest file and the newest, and keeps all between in order, whatever gaps the numbering has |
| RotatingSink.Open | 3rdparty/spdlog/include/spdlog/sinks/rotating_file_sink-inl.h:27-50 | Succeeds if and only if the size is not 0, the files are at most 200000 and a rotation on open of a base file that is not empty can rename all that has to move; what is kept is a suffix of what was stored, all of it without a rotation |
| RotatingSink.NamesDiffer | 3rdparty/spdlog/include/spdlog/sinks/rotating_file_sink-inl.h:52-64 | No two indices share a file name |
| RotatingSink.SplitByExtension | 3rdparty/spdlog/include/spdlog/details/file_helper-inl.h:131-149 | Base and extension joined are the name |
| RotatingSink.SplitIsSound | 3rdparty/spdlog/include/spdlog/details/file_helper-inl.h:131-149 | An extension is one dot and more, without a folder, and never follows an empty base or a folder |
| RotatingSink.ExtensionIsExact | 3rdparty/spdlog/include/spdlog/details/file_helper-inl.h:131-149 | A name has an extension if and only if it ends with one dot and more, without a folder, behind something that is no folder, and then this is the extension |
| RotatingSink.IndexBeforeExtension | 3rdparty/spdlog/include/spdlog/sinks/rotating_file_sink-inl.h:52-64 | The index of a rotated file stands before the extension, or at the end of a name without one |
| Backoff.DelayIsIntended | impl/bacnet/src/proto_bacnet_discovery.cc:222-230 | The computed delay is the intended one if and only if the product is below 2^31 or wraps to a minute or more |
| Backoff.NoWrapIsEnough | impl/bacnet/src/proto_bacnet_discovery.cc:222-230 | When the last attempt's product is in range, every delay is the intended one and later ones are no shorter |
| Backoff.DefaultIntervalWraps | impl/bacnet/src/proto_bacnet_discovery.cc:226-230 | With the default interval the delay after thirty failures is negative |
| Backoff.ProductDoubles | impl/bacnet/src/proto_bacnet_discovery.cc:226-230 | The product starts with the interval in seconds and doubles with each failure |
| Backoff.AttemptsAreBounded | impl/bacnet/src/proto_bacnet_core.cc:478-507 | In every run the attempts never exceed the configured number |
| Backoff.AttemptsAreSpread | impl/bacnet/src/proto_bacnet_discovery.cc:213-255 | Failing automatic attempts in a row are spread over at least the sum of their delays, also with failing calls of the user in between |
| Backoff.SuccessStartsAgain | impl/bacnet/src/proto_bacnet_discovery.cc:236-250 | A check that finds the device starts the count again: the next attempt waits for the first delay alone |
| Backoff.ConnectingStartsAgain | impl/bacnet/src/proto_bacnet_core.cc:501-507 | So does a call of the user that finds it |
| Backoff.InitializingStartsAgain | impl/bacnet/src/proto_bacnet_core.cc:404 | So does an initialisation |
| Backoff.FailureWaits | impl/bacnet/src/proto_bacnet_discovery.cc:213-255 | After a failing check the next attempt waits for exactly the next delay, while one is left |
| Backoff.Reconnector.CheckAndReconnectIfNeeded | impl/bacnet/src/proto_bacnet_discovery.cc:200-256 | One check of the worker is the machine's step, for every configuration |
| Backoff.Reconnector.ConnectDevice | impl/bacnet/src/proto_bacnet_core.cc:455-516 | One call of the user is the machine's two steps, or none when a connection is up or under way, which is a success |
| Text.DecimalInjective | 3rdparty/spdlog/include/spdlog/sinks/rotating_file_sink-inl.h:63 | No two numbers print the same |

## Left out

- Network and protocol libraries: the BACnet stack is a source of ids and answers, libyaml a list of events, the MQTT
  library an acceptance or a refusal, the file system a map.
- Freedom from deadlock: `plc_proto_read` and the handlers take two locks in opposite orders.
- `ActiveOperation`, the operation states, user callbacks, logging, and the `original_request` field of a state.
- Starting, connecting and reloading a context, apart from the counters of `Backoff` and the clears of `Reset`.
- Whether a read is timed out early: staleness is measured from the last ACK, not from the send.
- Disjointness of the ids of reads and writes, which the code does not keep.
- Conversion of request values to application values; the model takes its success as a parameter.
- Floats inside BACnet values are bit patterns, and "%.6f" is an opaque choice of sign, whole part and six digits.
- Nested JSON values and escaped surrogates, which the printer never produces; truncation may split a UTF-8 sequence.
- How `config_update` locks, writes and renames its temporary file: one parameter says whether all of it works. Lines of
  mstp are not told apart from the section before, in the code as in the model.
- Errors while the configuration file is being read, and a configuration whose texts hold a line break or a NUL, which
  the results about a second call exclude or leave to `ConfigRewrite.ReadBackIffReadable`.
- The scalar of a written value is what stands between its quotes; escapes inside YAML quotes are not modelled.
- What the loaders make of sequences, aliases and broken streams is given by their machines, and not setting by setting.
- The table of configuration sources that the loaders fill beside the configuration.
- File operations other than renaming in the rotating sink always work.
- Backoff.Reconnector.CheckAndReconnectIfNeeded: does not say what follows the 32nd failed attempt when more are
  configured, because there the code shifts a 32-bit number by 32, which has no defined result.
- A check of the worker is one step of `Backoff`, although its counters are atomic only one by one.
- Waking up: a call that waits is one look at its condition; in `LogPool` it is a step that is not enabled.
- Wrap-around of 64-bit sizes and counters.
- Exceptions in sinks, the rest of the logging library, and the Modbus driver.
