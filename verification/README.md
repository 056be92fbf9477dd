# Micro-conf: a verified model

Micro-conf is a registry and configuration service. Its nodes keep one key-value
store in step through a Raft log; instances keep themselves registered by
heartbeats on expiring keys; administrators stage and release configuration
texts, and connected clients are told what changed. This project models the
four parts of it where the behaviour is intricate, and proves what they keep.

The code is modelled as it is written. Where a property that one would expect
does not hold, the expected property is stated with the exact condition under
which the code has it, and a concrete counterexample where that helps.

**The replicated store.** `Fsm` is one committed command applied to a database of
values and deadlines, with the wrapped unsigned arithmetic of the TTL.
`Replica` runs an agreed log on replicas that each read their own clocks and may
snapshot, in full or not, restart and replay at any time. The main result says
exactly which logs all replicas agree on: those in which no write is followed, on
its key, only by expiring writes that it outlives by more than a millisecond. A
registration for 30 seconds followed by a heartbeat for 10 is such a write. A
deletion resets its key, until another node's snapshot is installed over an older
database: loading one does not delete, so then a write that outlives what follows
some later deletion counts too. Where installed snapshots may be incomplete,
replicas agree only on logs with nothing to show.
`OrderedKeys` is the byte order of keys and the seek-and-stop scans; `LogStore`
refines the log kept on big-endian keys to a numeric log, with the chunked
`DeleteRange`, over whole runs; `Persist` is the writing of a snapshot.

**The configuration codec.** `Tree` is `wordToNode`: inserting one dotted key at a
time into a tree; `Repeats` says what a repeated key does, `Mixed` what holds even
of files that describe no one tree. `Sorting`, `Yaml`, `Resort`, `Dense`, `Printer`
and `YamlText` are the sorting and printing of that tree, and an independent reader
of the printed text: block mappings and sequences by indentation and dashes (YAML
1.2, section 8.2), and plain and single-quoted scalars (sections 7.3.3 and 7.3.2); a
second dash opens a sequence in a sequence, blanks around a scalar are layout.
`Props`, `Codec`, `DataTree` and `RoundTrip` are the flattening of nested data, the
reading of properties lines, and the round trips: data to properties to YAML to
data, and data to flat map. `Places` says which lines any data flatten to. `Alike`
shows that data are determined, up to the order of keys, by their leaves;
`Iteration` says which data lose no line in any order their maps may be iterated in,
`Outcomes` which keep the same lines in every such order, and `Losses` what the text
can no longer tell.

**Diff, release and push.** `Diff` compares two flat maps up to letter case and
turns the difference into events; `Release` is the state machine of one namespace
(create, stage, release in separate store writes, push event by event and client
by client, crash anywhere, connect, load, deliver) and `Clients` the clients that
follow it. A text is flattened anew each time it is read, so each reading is a
choice among those the text allows; `Readings` says, for YAML, when there is only
one, and that retries are harmless and clients end up right exactly then.

**Registry and connections.** `Conn` interleaves any number of `Close` calls
with registrations, one atomic action at a time; `ConnChecked` is the variant in
which unregistering checks whose key it is. `Registry` and `Namespaces`
print, parse, scan and group keys; `Heartbeat` is registration and renewal over
runs of many instances.

Clock readings, map iteration orders, the library's sort, the room in a transaction,
the outcome of a commit, what a configuration text is read as each time and which
record a node's backup load keeps are parameters, and every theorem holds for all
of them or says for which. Case folding and the decoders of YAML and JSON are
parameters too. Every lemma switches automatic induction off, so each proof is the
one that is written down.

## Model

| member | source | states |
|---|---|---|
| `Fsm.Machine.Apply` | store/raft/fsm.go:23-38 | one committed command does to the database what the specification step does; any other op is answered with an error and changes nothing |
| `Fsm.Machine.ApplySet` | store/raft/fsm.go:58-76 | a late expiring write is skipped; otherwise the value is stored, with the deadline the wrapped TTL gives |
| `Fsm.Machine.ApplyDelete` | store/raft/fsm.go:78-85 | removes the key and nothing else |
| `Fsm.Machine.Restore` | store/raft/fsm.go:48-56 | what is there after a load: keys only in the database stay, and of two records of one key, or of a record and a deletion, either may win |
| `Fsm.DeadlineExact` | store/raft/fsm.go:62-73 | the unsigned subtract-multiply-cast gives the requested instant if and only if the signed difference fits an int64 of nanoseconds, even when the second clock read is past the deadline |
| `Fsm.ToInt64Exact` | store/raft/fsm.go:62-73 | the cast gives the one int64 that is congruent to the number |
| `Fsm.RequestToDeadline` | store/raft/raft.go:173-198 | from requested nanoseconds to stored deadline the entry never outlives the request and loses less than a millisecond, unless it is applied late and dropped |
| `Fsm.UnlimitedStays` | store/raft/raft.go:173-198 | a write whose lifetime is not positive, as every configuration is written, leaves exactly its value without a deadline, shown at every time, and every other key as it was, whatever the clocks |
| `Fsm.DeleteHasNoEffect` | store/raft/raft.go:201-216 | the op that `Delete` submits is not one `Apply` knows, so no delete through the store changes anything, where the known op would have |
| `Replica.LifeKeepsInv` | store/raft/fsm.go:23-56 | over every run of applies, snapshots that are kept in full or in part, restarts and replays, and over every run in which complete snapshots are installed from other nodes as well, each slot holds what the log could have left there on some timely or late replica |
| `Replica.ConvergesIffSettled` | store/raft/fsm.go:41-76 | all replicas that finished the log, loading no snapshots but their own, show the same values ever after, whatever their clocks, snapshots in full or in part, restarts and replays, if and only if no write is followed on its key only by expiring writes that it outlives by more than a millisecond; so a deletion, or a write that does not expire, resets its key |
| `Replica.InstalledConvergesIffSettled` | store/raft/fsm.go:41-76 | where complete snapshots of other nodes are installed too, if and only if besides no write outlives all the expiring writes that alone follow some later deletion |
| `Replica.DeletionResets` | store/raft/fsm.go:48-56 | a set and a deletion: replicas agree without installed snapshots, and need not with them |
| `Replica.AnyConvergesIffSilent` | store/raft/fsm_snapshot.go:12-28 | where snapshots that stopped midway are installed too, if and only if no command writes a value that is not expired from the first |
| `Replica.OutlivedDiverges` | store/raft/fsm.go:41-76 | for a log that breaks the condition, without or with installed snapshots, two schedules with monotone clocks after which the two replicas show different values; without any snapshot or restart unless a deletion is what must be passed over |
| `Replica.HeartbeatConverges` | service/conn/heartbeat.go:97-101 | a registration and the next heartbeat leave all replicas agreeing, with complete snapshots installed or without, if and only if the heartbeat's deadline is no earlier, up to a millisecond |
| `Replica.LateReplayKeepsLive` | store/raft/fsm.go:58-76 | with no condition on the log: whatever a replica shows is shown, with the same value, by every replica that applied each entry no earlier |
| `Replica.RestoreExact` | store/raft/fsm.go:41-56 | loading a backup of any longer prefix over any database, whichever records win, and replaying from the index gives the state of the whole untimed log if and only if each key is written or deleted in the replay, or takes the backup's record, or already was in the database as at the index |
| `Replica.RestoreBackupWins` | store/raft/fsm.go:41-56 | when the backup's records always win, if and only if every key of the database is written or deleted in the replay or was live at the index |
| `Replica.RestoreOverNewer` | store/raft/fsm_snapshot.go:12-28 | it always does over a database that is at or past the snapshot index, whichever records win |
| `Replica.RestoreOverOlder` | store/raft/fsm.go:48-56 | a log whose key, deleted before the snapshot, comes back when the database is older, whichever records win |
| `Persist.Write` | store/raft/fsm_snapshot.go:12-28 | a complete backup leaves the sink open for its owner; one that stopped midway is closed, so kept, and reported as a success, unless closing fails |
| `OrderedKeys.PrefixBlock` | store/raft/raft.go:133-142 | in byte order, whatever lies between the prefix and a key that has it has it too |
| `OrderedKeys.ScanPrefix` | store/raft/raft.go:127-170 | stopping at the first key without the prefix still finds exactly the keys that have it, in order |
| `OrderedKeys.ScanKeys` | store/raft/raft.go:153-170 | lists exactly the live keys with the prefix |
| `OrderedKeys.ScanKvs` | store/raft/raft.go:127-149 | maps exactly those keys to their values |
| `OrderedKeys.ScannedExact` | store/raft/raft.go:127-149 | under each key that begins with the prefix a scan gives what is shown there, under any other nothing |
| `LogStore.DecodeEncode` | store/raft/util.go:28-37 | decoding inverts encoding at every width |
| `LogStore.KeyOrder` | store/raft/util.go:33-37 | eight big-endian bytes compare as the numbers do |
| `LogStore.BadgerStore.EndIndex` | store/raft/badger_store.go:66-94 | the first or the last index of the log, 0 when it is empty |
| `LogStore.BadgerStore.GetLog` | store/raft/badger_store.go:97-122 | the entry at an index, if there is one |
| `LogStore.BadgerStore.StoreLogs` | store/raft/badger_store.go:130-149 | puts all entries under their big-endian keys, later ones over earlier ones, in one transaction, or none |
| `LogStore.PutStored` | store/raft/badger_store.go:130-149 | read as a numeric log, those bytes hold the old entries and the new ones |
| `LogStore.BadgerStore.DeleteRange` | store/raft/badger_store.go:151-185 | wherever transactions fill up, success removes exactly the range and a failure has removed exactly an initial part of it; it terminates on the keys left |
| `LogStore.LogStaysContiguous` | store/raft/badger_store.go:66-185 | over every run on the stored bytes of adjoining batches, compactions, interrupted or not, and completed truncations, the indexes stay one interval and the two end indexes are its ends |
| `LogStore.TruncateExact` | store/raft/badger_store.go:151-185 | a removed range leaves an interval if and only if it is empty, starts at or before the first index or reaches the last |
| `LogStore.WithoutIndexes` | store/raft/badger_store.go:151-185 | removing a range of byte keys removes that range of indexes |
| `Tree.PeelPrint` | service/cfg/codec.go:666-684 | a printed name with index peels back to name and index |
| `Tree.PeelTakesLast` | service/cfg/codec.go:666-684 | only the last index is peeled, so an array directly inside an array is not recognised; an index that no int holds leaves no name |
| `Tree.PeelIndexed` | service/cfg/codec.go:666-684 | every word that ends in brackets with only digits in them: no index without digits or after a newline, and neither name nor index if the digits overflow an int |
| `Tree.PeelOther` | service/cfg/codec.go:666-684 | every other word is a name without index |
| `Tree.WordToNode` | service/cfg/codec.go:543-619 | the in-place insertion computes the recursive insertion, leaving no words |
| `Tree.ContinueNodes` | service/cfg/codec.go:571-608 | its loop gives the words to the first matching node only, and enters later matches with none |
| `Tree.InsertLeaves` | service/cfg/codec.go:543-619 | inserting a key that fits adds exactly its leaf and keeps the tree well formed |
| `Tree.BuildLeaves` | service/cfg/codec.go:331-358 | whatever the order of the lines, the tree built from prefix-free, kind-consistent keys has exactly the entries as its leaves |
| `Repeats.FirstValueStays` | service/cfg/codec.go:592-608 | a later line that repeats a key without an index changes nothing, so the first value stays, where a properties map keeps the last |
| `Repeats.ElementTwice` | service/cfg/codec.go:571-590 | a repeated array element is added beside the first instead |
| `Mixed.BuildExtends` | service/cfg/codec.go:543-619 | whatever lines follow, and whether the file describes one tree or not, every node that the first lines made stays in its place with its name, value, kind and index |
| `Mixed.PrintedSaysAll` | service/cfg/codec.go:496-541 | for every tree, well formed or not, and every sort, the printed lines give the name and value of each node once, below an array node those of its value list |
| `Sorting.InsertionSorts` | service/cfg/codec.go:780-788 | what is assumed of the sort (with the comparison as written it orders indexes, leaves alone a list with no two comparable keys out of order, and may permute equal ones) holds of the insertion sort that short slices get |
| `Sorting.PickedPerm` | service/cfg/codec.go:780-788 | a rearrangement keeps every element as often as it was |
| `Resort.DeepSortNodes` | service/cfg/codec.go:775-793 | resorting keeps the leaves and the well-formedness and puts every array's nodes in index order |
| `Dense.SortedDataLeaves` | service/cfg/codec.go:331-358 | with no gap in the array indexes, the sorted tree, read as data, has exactly the entries as leaves |
| `Alike.LeavesDetermine` | service/cfg/codec.go:331-358 | two regular data with the same leaves are the same up to the order of keys |
| `Yaml.ReadFormat` | service/cfg/codec.go:496-541 | the lines printed for a mapping, read by indentation and dash, give the data of the tree |
| `Yaml.ReadElems` | service/cfg/codec.go:496-541 | the same for a sequence, of scalars or of mappings grouped by index |
| `Printer.ResortValue` | service/cfg/codec.go:775-793 | sorts the value lists in an array node, nested ones included |
| `Printer.DeepSortResorted` | service/cfg/codec.go:775-793 | resorting a node on the way in, and its parts again later, ends in the same tree as sorting once throughout |
| `Printer.FormatPropertiesToYaml` | service/cfg/codec.go:496-541 | the text of each node's line and of what the resorted node holds, indented per level, for every tree and every sort |
| `Printer.PrintedSorted` | service/cfg/codec.go:496-541 | in a well-formed tree, printing while resorting gives the lines of the tree sorted throughout |
| `Printer.PrintedSteady` | service/cfg/codec.go:496-541 | a tree whose value lists have no comparable indexes out of order is printed as it is, arrays of scalars mixed with maps included |
| `YamlText.ParseRender` | service/cfg/codec.go:496-541 | a printed line whose key is a plain scalar and whose value is empty, plain or one the printer quotes reads back to indentation, dashes, key and value |
| `YamlText.ReadPrinted` | service/cfg/codec.go:356-357 | the joined text reads as its lines do |
| `Props.DoMapToProperties` | service/cfg/codec.go:621-657 | the visits of a value in order, an empty nested map discarding what was accumulated |
| `Props.MapToProperties` | service/cfg/codec.go:371-401 | the flattened text of the top-level entries, or a panic exactly if some top value is nil |
| `Props.FlattenKeepsAll` | service/cfg/codec.go:631-633 | flattening keeps every leaf's line if and only if no empty nested map is visited after a leaf |
| `Places.LinesExact` | service/cfg/codec.go:621-657 | for all data, arrays directly in arrays and any keys included, the visited lines are exactly those of the leaves, each under the name of its place |
| `Iteration.EveryOrderKeepsAll` | service/cfg/codec.go:371-401 | every leaf has its line, in every order the maps may be iterated in, if and only if no top value is nil, no map holds a leaf in one field and an empty map in another, and no array an empty map after a leaf |
| `Outcomes.SameLinesExact` | service/cfg/codec.go:621-657 | data whose lines all differ keep the same lines in every order their maps may be iterated in if and only if they are steady: no empty map, or no line left whatever the order, or all that is visited in one steady field; in an array only what no empty map follows counts |
| `Props.GetPropertiesItemLineList` | service/cfg/codec.go:476-494 | all lines, or none when the content ends in a backslash |
| `Props.ContinuationExact` | service/cfg/codec.go:484-492 | continued lines come out as a line-by-line test would give them if and only if no line, or every line, ends in a backslash |
| `Text.TrimExact` | service/cfg/codec.go:336-337 | trimming takes off blanks at both ends and nothing else |
| `Text.TrimsLayout` | service/cfg/codec.go:336-337 | indentation and carriage returns at the ends of a line make no difference |
| `Props.LineEntryExact` | service/cfg/codec.go:335-354 | a line gives an entry if and only if, trimmed, it is a key without '=', an '=' and the value and does not begin with '#' |
| `Props.EscapeExact` | service/cfg/codec.go:646-652 | a value of several lines gets a backslash before each line end and is otherwise kept |
| `Props.PropertiesToYaml` | service/cfg/codec.go:331-358 | the YAML of the tree built from the lines that hold entries |
| `Props.ValuesAreSingleLine` | service/cfg/codec.go:345-350 | no value that reaches the tree holds a newline |
| `Props.PropertiesToMap` | service/cfg/codec.go:271-295 | text without any '=' is refused; all is dropped if it ends in a backslash; otherwise it panics if and only if a trimmed line has text but no '=', and else a key has a value if and only if the last trimmed line that sets the key sets it to that |
| `Props.MapOfExact` | service/cfg/codec.go:271-295 | the same of the function that the comparison of contents and the clients read a properties text with |
| `RoundTrip.PropsFileExact` | service/cfg/codec.go:271-295 | the lines of leaves with distinct paths and no index read as exactly those paths and values |
| `Props.YamlToKvList` | service/cfg/codec.go:200-223 | one pair per flattened line with text, in the order of the lines, repeated keys kept; nothing, and no error, for text without colon and dash; a line without an equals sign panics |
| `Props.RefusedExact` | service/cfg/codec.go:200-208 | it fails if and only if the text holds a colon or a dash and cannot be decoded |
| `Props.YamlToFlatMap` | service/cfg/codec.go:225-235 | the map of those pairs, later ones over earlier ones |
| `Codec.PropertiesToYamlKeepsEntries` | service/cfg/codec.go:331-358 | the YAML text of a consistent file reads back as data of regular shape with exactly the file's entries as leaves; any other such data is the same up to the order of keys |
| `Codec.FieldLines` | service/cfg/codec.go:621-657 | flattening visits exactly the leaves, each with its printed path, whatever empty maps and arrays lie between |
| `Codec.PathRoundTrip` | service/cfg/codec.go:353-354 | splitting and peeling a printed path gives the path |
| `Codec.LineRoundTrip` | service/cfg/codec.go:335-355 | a leaf's line parses to its path and value |
| `RoundTrip.DataRoundTrip` | service/cfg/codec.go:331-358 | nested data, arrays of scalars mixed with maps included, flattened and turned into YAML, read back exactly, nil as the empty text; unless a nil at the top panics |
| `DataTree.DataBuilds` | service/cfg/codec.go:543-619 | the entries of nested data, inserted in order, build the tree of the data |
| `Losses.EmptiesNotKept` | service/cfg/codec.go:621-657 | the text that data flatten to is also that of data without empty maps and without empty arrays but as an element before another; those data are the same if and only if there was nothing of the kind, so nothing that reads the text can tell |
| `RoundTrip.NestedNotKept` | service/cfg/codec.go:331-358 | what is read back never has an array directly inside an array, so data that do never come back, where their lines are those of one tree |
| `RoundTrip.NestedExample` | service/cfg/codec.go:666-684 | `a: [[x]]` comes back as the one field `a[0]: [x]` |
| `RoundTrip.FlatMapExact` | service/cfg/codec.go:225-235 | the flat map of decoded data, empty maps and arrays admitted, has exactly one entry per leaf from the last empty map on, under its printed path: every leaf if and only if no empty map is visited after one; a nil at the top panics |
| `RoundTrip.KvListExact` | service/cfg/codec.go:200-223 | the pairs are the leaves from the last empty map on, printed path and value, in the order they are visited in; a nil at the top panics |
| `RoundTrip.KeysDiffer` | service/cfg/codec.go:621-657 | paths print the same key if and only if they are the same |
| `Diff.BuildNamespaceDiff` | service/cfg/differ.go:59-106 | both loops, in any order of the maps, compute the specified diff |
| `Diff.DiffAt` | service/cfg/differ.go:59-106 | key by key and for every new version, the empty one included: unchanged and removed keys have their old contents, added ones their new, changed ones both; over an empty new version all is unchanged |
| `Diff.DiffPartitions` | service/cfg/differ.go:76-96 | removed, changed and unchanged split the old keys; added, changed and unchanged split the new |
| `Diff.SameExact` | service/cfg/differ.go:97 | `Same` holds if and only if the maps agree up to case or the new one is empty |
| `Diff.ReleasableExact` | service/cfg/differ.go:33-57 | there is something to release if and only if the format is yaml, props or json, the first reading does not panic, the second gives an entry, and they differ by more than case; for json both are readings of the new text, yml has no case, and an error of the first reading does not count |
| `Diff.DoPush` | service/cfg/change_listener.go:107-174 | sends one event per added, removed and changed key and no other |
| `Diff.TellsExact` | service/cfg/change_listener.go:124-172 | which events there are, and what they carry: the new content of a key that only the new version has, the old content of one that only the old has, and both of one that differs by more than case |
| `Diff.PushSets` | service/cfg/change_listener.go:124-172 | the events set exactly the keys that differ, to their new contents |
| `Diff.ReplayFollows` | service/cfg/change_listener.go:124-172 | replayed in any order on a map anywhere between the two versions, they give the new version up to case |
| `Release.ConfigStore.CreateNamespace` | service/cfg/cfg_admin.go:31-52 | creates an empty current content unless there is one |
| `Release.ConfigStore.ChangeNamespaceContent` | service/cfg/cfg_admin.go:166-187 | stages a content if the namespace exists |
| `Release.ConfigStore.ReleaseNamespace` | service/cfg/cfg_admin.go:193-262 | refuses exactly if the old content crashes its reader, or the new one cannot be read or has no entries, or the two agree up to case; otherwise the store after each write it reached, and the events of the difference |
| `Release.PendingExact` | service/cfg/differ.go:33-57 | there is something to release if and only if the old content does not crash its reader and the new one is read, has an entry and differs from the old by more than case, be it only by what it no longer has |
| `Release.HandlerIsSteps` | service/cfg/cfg_admin.go:198-261 | the handler is a run of the state machine, each event of its push sent to each client in some order; the store up to any crash, and the clients' queues at the end |
| `Release.HistoryKeeps` | service/cfg/cfg_admin.go:230-251 | over every run with crashes and retries anywhere, current is empty or was staged, and while no history second is reused for another content, every content that was ever current is current or in the history |
| `Release.RecordExact` | service/cfg/cfg_admin.go:231-246 | in any run that has lost nothing, a reused second loses nothing if and only if the content it held is the one recorded or is kept under another second |
| `Release.SameSecondLoses` | service/cfg/cfg_admin.go:231-251 | a run with two releases in one second, after which the first content is neither current nor in the history |
| `Release.RetriesChangeNothing` | service/cfg/cfg_admin.go:219-228 | once the staged content is current, no run of retries and crashes changes any of the namespace's keys if and only if there is nothing to release between any two readings of it |
| `Release.CrashAfterWriteThenRetries` | service/cfg/cfg_admin.go:248-261 | in every run, after a crash past the current-write, retries leave current, staged and history alone under exactly that condition |
| `Clients.ClientsFollow` | service/cfg/change_listener.go:107-174 | over every run with no crash between write and end of push, the events sent one at a time to one client at a time among loads, replays and connections, if the contents have one reading each: a loaded client's map with its queue replayed agrees, key by key, with the current content up to case, or, while the push goes on and only where it has not been sent the event, with the content before |
| `Clients.DrainedClientHoldsCurrent` | service/cfg/cfg_api.go:47-88 | so once no push is going on, a loaded client with an empty queue holds whatever the current content is read as, up to case |
| `Clients.ClientsFollowExact` | service/cfg/cfg_api.go:79-85 | that holds in every such run over given contents if and only if each of them has one reading |
| `Clients.CrashBeforePushExact` | service/cfg/cfg_admin.go:248-254 | in any run whose push is cut off by a crash, a client loaded at the current-write and at the crash will hold the new content under a key if and only if the two contents agree there, or since the write it was sent the key's event or loaded with no event on the key queued |
| `Clients.LeftBehind` | service/cfg/cfg_admin.go:248-254 | a run that leaves a loaded client with nothing queued on the old content |
| `Clients.StaysBehind` | service/cfg/cfg_admin.go:248-254 | and what it will hold there stays, over any further run, until it loads or connects anew or a release is pushed whose readings differ there |
| `Readings.OneReadingExact` | service/cfg/codec.go:200-235 | a YAML text gives the same entries each time, and nothing to release against itself, if and only if it is not looked into, cannot be read, panics, or its data are steady |
| `Readings.SameMapExact` | service/cfg/codec.go:371-401 | two orders of iterating the same data give the same flat map if and only if they keep the same lines |
| `Readings.SafeSteady` | service/cfg/codec.go:631-633 | data that lose no line in any order are steady |
| `Readings.YamlRetries` | service/cfg/differ.go:42-57 | retries after a crash past the write leave a YAML namespace alone if and only if the content's data are steady or not read |
| `Readings.YamlClients` | service/cfg/cfg_api.go:79-81 | the clients of a YAML namespace always end up with the current content if and only if the data of every content are steady or not read |
| `Readings.JsonReleasableExact` | service/cfg/differ.go:46-48 | a json text can be released, over whatever is current, if and only if its own data are not steady |
| `Readings.PropsReadsOne` | service/cfg/differ.go:49-51 | a properties text always has one reading, so retries of a props namespace change nothing and its clients end up with the current content |
| `Readings.EmptyMapUnsettles` | service/cfg/codec.go:631-633 | `a: {}` above `c: 1` is read as no entries or as one, so it may be released over itself |
| `Conn.CloseRunsOnce` | service/conn/client.go:132-154 | over every interleaving, channel close, unregistration and connection close run at most once, in that order, only in the goroutine that set `closed` |
| `Conn.CloseCompletes` | service/conn/client.go:132-154 | once all calls of `Close` on a client have ended, and there was one, each of the three has run exactly once and the lock is free |
| `Conn.SomeoneGoes` | service/conn/client.go:132-154 | a call that has not ended can take a step, or the one that holds the lock can |
| `Conn.SixSteps` | service/conn/client.go:132-154 | and no call takes more than six |
| `Conn.RegistryHasNoUnregistered` | service/conn/client_mgr.go:3-15 | `GetClient` never returns a client whose own unregistration has run |
| `Conn.RegistrationLasts` | service/conn/websocket.go:29-44 | a registered client is still the one its key maps to if and only if no later step registers the key or unregisters any client of it |
| `Conn.PredecessorUnregistersSuccessor` | service/conn/client_mgr.go:13-15 | a run in which a reconnected client, closed by nobody, is removed by its predecessor's `Close` |
| `ConnChecked.CheckedRegistrationLasts` | service/conn/client_mgr.go:13-15 | were a key removed only while it maps to the client that unregisters, a client would stay registered until exactly its own unregistration or a new registration of its key |
| `Registry.InstanceKeyExact` | service/app/service.go:58-99 | a printed instance key parses to its fields if and only if application and group are non-empty and free of dots and colons, the address is non-empty and colon-free, and the port is an int from 1 |
| `Registry.ExtractExact` | service/app/service.go:58-99 | every key, printed or not: it gives an instance if and only if what follows its first 18 characters is application, group, address and port with their separators, the port read with its sign |
| `Registry.CrashExact` | service/app/service.go:58-99 | every key: it panics the parser if and only if a colon stands in the application or the group |
| `Registry.AtoiExact` | service/app/service.go:88-91 | a port is an optional sign and digits, in the range of an int |
| `Registry.PrefixSelects` | service/app/def.go:20-22 | the scan prefix of a dot-free pair begins that pair's keys and no other's |
| `Registry.ServiceInfos` | service/app/service.go:28-56 | one service for each scanned key that parses, in any order, with its state and the metadata under its name; a key that makes the parser slice backwards panics |
| `Registry.ServicesAreLiveInstances` | service/app/service.go:28-56 | with clean keys it never panics, and a service is listed once if its instance is live with that state and that live metadata, and not at all otherwise |
| `Namespaces.ExtractNamespaceInfo` | service/app/cfg.go:87-124 | the dot-counting loop finds the fourth dot and parses what follows it |
| `Namespaces.NamespaceKeyExact` | service/app/cfg.go:86-124 | a printed namespace key parses to its fields if and only if application and group are dot-free, the namespace has two parts, the address is colon-free and the port fits an int |
| `Namespaces.ListenerExact` | service/app/cfg.go:86-124 | every key, printed or not: it gives a listener if and only if after its fourth dot come a namespace of two parts, an address and a port |
| `Namespaces.AtoiValueNearest` | service/app/cfg.go:117-117 | a port out of range counts as the nearest int, the error being dropped |
| `Namespaces.AtoiValueMalformed` | service/app/cfg.go:117-117 | a port that is no number counts as 0 |
| `Namespaces.GetAllNamespaceInstances` | service/app/cfg.go:31-49 | groups the listeners by namespace in key order; a key that does not parse panics |
| `Namespaces.ListenersAreLiveKeys` | service/app/cfg.go:31-49 | with clean keys it never panics, and a listener is found under its namespace once if its key is live and not at all otherwise |
| `Heartbeat.SetAppHeartBeat` | service/conn/heartbeat.go:73-104 | renews metadata and state, filling in what is missing or expired |
| `Heartbeat.RouteHeartbeat` | service/conn/heartbeat.go:60-126 | a valid heartbeat renews the instance and, if it serves configuration, every namespace it names; an invalid one does nothing |
| `Heartbeat.RegApp` | service/app/reg.go:80-98 | writes metadata, namespace keys and the given state |
| `Heartbeat.InstancesDiffer` | service/app/reg.go:58-60 | instances of dot-free applications and groups have different keys |
| `Heartbeat.DoSlot` | service/conn/heartbeat.go:60-126 | an action changes an instance's slot only if it is that instance's own, accepted and in time |
| `Heartbeat.BeatStates` | service/conn/heartbeat.go:85-103 | a heartbeat in time stores DISABLED with the service off, else the state shown before, or UP if none was, until the granted timeout |
| `Heartbeat.DoMeta` | service/conn/heartbeat.go:73-84 | an action changes the metadata only if it is an accepted one of the instance and in time: a registration stores its own, a heartbeat what was shown before, or its own if nothing was, and either for one more day |
| `Heartbeat.MetaKept` | service/app/reg.go:80-88 | over every run of heartbeats after a registration, metadata are shown exactly until the deadline last granted, and they are the registered ones as long as each heartbeat came before the deadline then in force |
| `Heartbeat.BeatTouches` | service/conn/heartbeat.go:60-126 | a heartbeat changes no key but the metadata and the state of a valid instance and, if it serves configuration, the namespaces it names |
| `Heartbeat.RegistrationTouches` | service/app/reg.go:58-98 | nor does a registration, and a rejected one changes nothing |
| `Heartbeat.VisibleUntilDue` | store/raft/raft.go:173-198 | over every run of registrations and heartbeats of many instances, an instance is visible exactly until the deadline of its latest write |
| `Heartbeat.BeatLasts` | service/conn/heartbeat.go:60-103 | after a heartbeat with application, group, an address of seven characters or more and a port, the instance is visible exactly until the timeout it asked for, or ten seconds for a timeout below one second |
| `Heartbeat.RegistrationLasts` | service/app/reg.go:58-98 | after a registration that is complete, exactly for thirty seconds, with the given state |
| `Heartbeat.StateKeptExactly` | service/conn/heartbeat.go:85-103 | after a registration, or a heartbeat with the service off, later heartbeats keep the state, DISABLED included, if and only if each comes before the deadline then in force; otherwise it is UP from then on |
| `Heartbeat.HeartbeatIsListed` | service/conn/heartbeat.go:106-126 | until its deadlines, a heartbeat that serves configuration puts its instance once under every namespace it names, shared ones included |
| `Heartbeat.RegistrationIsListed` | service/app/reg.go:89-95 | a registration puts the instance once under every namespace it names for thirty seconds |
| `Heartbeat.TargetExact` | service/app/cfg.go:125-134 | a name of four parts stands for the application, the group and the namespace it spells out; any other name for a namespace of the instance |
| `Heartbeat.BeatNamespaces` | service/conn/heartbeat.go:106-126 | a namespace key that a heartbeat wrote is gone once the timeout is over |
| `Heartbeat.RegisteredNamespaces` | service/app/reg.go:89-95 | one that a registration wrote, after thirty seconds |

## Left out

- Raft itself: election and replication are the library's; the model takes one agreed log, and a committed write as applied.
- Badger's internals: an ordered map with transactions, deadlines and a nondeterministic size limit; its rounding of expiry to seconds and value-log collection are not modelled.
- The order in which a backup load settles two records of one key: `Restore` takes it as a free choice per key.
- LifeKeepsInv: where a snapshot from another node is installed over an older database, its records win over the older ones, as those of a node that has applied more; `RestoreExact` covers every other choice, for logs without expiry. A node's own reload is free in which records win. Installed snapshots that stopped midway are covered by `AnyConvergesIffSilent` alone.
- InstalledConvergesIffSettled: the same assumption on which records of an installed snapshot win.
- Clock readings and deadlines past the year 2262, where nanoseconds leave an int64; `DeadlineExact` says where that begins.
- YAML and JSON text parsing and scalar typing: scalars are single-line texts, and the decoders are parameters.
- `appendSpaceForArrayValue` and multi-line `|` values: it changes only values with a newline, which `ValuesAreSingleLine` excludes.
- The algorithm of `sort.Slice`: it is a parameter, any rearrangement that depends on the indexes alone, orders indexes that are all comparable and leaves alone a list in which no two comparable ones are out of order; it may permute the keys of one array element.
- `YamlNode.parent`: it is passed on and never followed.
- In-place update of `YamlNode` slices: the tree is a value and the methods return the new one; aliasing between slices is not modelled.
- DataRoundTrip: arrays directly inside arrays and empty maps and arrays are excluded, because the code does not keep them: see `NestedNotKept` and `EmptiesNotKept`. Excluded too are keys and values that are no scalars of the reader or hold a separator, a newline or edge blanks, and keys that start a document.
- FlatMapExact: arrays with something in them directly inside arrays are excluded, and separators, newlines and edge blanks in keys and values; text without colon and dash gives the empty map, as `YamlToKvList` states. The same goes for `OneReadingExact` and what follows from it.
- NestedNotKept: where an array holds both arrays and scalars or maps, the printed lines need not be those of one tree, and what then comes back is not modelled.
- PropertiesToYamlKeepsEntries: in a file written by hand an array holds scalars only or maps only, has no gap in its indexes, and its scalars come in index order; mixed arrays are covered in the order flattening writes them, by `DataRoundTrip`.
- HistoryKeeps: the history clause asks for distinct seconds, because history keys have a resolution of one second; `RecordExact` says when a reused second loses something and `SameSecondLoses` gives a run.
- ClientsFollow: it excludes a crash between the current-write and the end of the push, because nothing repeats the push; `CrashBeforePushExact` says what is lost and `LeftBehind` gives a run. A load is one step: a load whose answer is overtaken by a push, and so leaves the client behind, is not modelled. Every connected client counts as listed for the push; an instance whose namespace key has lapsed is sent nothing and counts as having left.
- A client that reconnects starts unloaded and with nothing queued: one that comes back with its map within the 30 seconds a push waits, and the messages that are dropped because its old channel is closed, are not modelled.
- `Keys` and the parsing of keys in `queryNamespaceContent`: a load is of one namespace, whose key and format are given.
- Runs of json namespaces: their release compares two readings of the staged text, which `ReleasableExact` and `JsonReleasableExact` cover; `Release` and `Clients` are for yaml and props.
- Two releases of one namespace at once; a content staged during a release is covered, and may be dropped with the one released.
- Pushing to other nodes, its retries and the `IsSelf` test: events reach locally connected clients only.
- Deletes as the store writes them have no effect; the release machine covers both a delete that takes effect and one that does not.
- `removeNamespace`, history listing and the namespace listings for administrators: loops over keys already covered by the scans.
- `Send`, `Read` and `Write` of a websocket client, and `TryClose`: network input and output; any of them may call `Close`, which is interleaved freely.
- Data races on the unguarded client registry: each map operation is one atomic step.
- A failed store write in a registration or heartbeat: it is logged and the next write follows.
- The checks of names, application and group that need the application's record are one parameter of `RegApp`.
- Service metadata stays the text that is stored; its JSON is not read.
- Requests, sessions, tokens, redirects to the leader, user and role management: plumbing or easy set operations.
