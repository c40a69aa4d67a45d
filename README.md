# yogInduNFS in Dafny

A model of the sequential logic of yogInduNFS, a small network file directory in C,
with proofs of its properties. The system has three processes:

- **Naming server**: keeps a registry of up to ten storage servers. Each registered
  path goes into a 100-bucket chained hash index that names the storage server
  holding that path. It answers `GET_SERVER <path>` lookups.
- **Storage server**: walks its directories, registers the files it finds with the
  naming server, then serves `READ`, `WRITE` and `DELETE` commands.
- **Client**: asks the naming server where a path lives, then talks to that storage
  server.

The repository also holds an earlier prototype (`1_Project_NFS`). Its naming server
keeps a linear registry and answers one query per connection. Its storage server
registers a comma-joined path list.

Modules, one per source file, plus two shared modules:

| module | file | models |
|---|---|---|
| `Wrappers` | wrappers.dfy | `Option` |
| `CText` | ctext.dfy | the C string routines the processes use, on strings without a terminator: `sscanf`'s `%s`, `%d` and `%[^\n]`, `strtok`, `sprintf`'s `%d`, `strncpy` truncation |
| `NamingTypes` | naming_types.dfy | NFS/namingServer.h: constants and records |
| `NamingServer` | naming_server.dfy | NFS/namingServer.c: `hash`, the `HashMap` class (an array of 100 bucket chains), the `NamingServer` class (registry array, count, index) and its handlers |
| `StorageNode` | storage_node.dfy | NFS/storageServer.c: the directory walk over an abstract tree, path collection, the registration message, the client command loop |
| `Client` | client.dfy | NFS/client.c: the lookup request and reply parse, the `CREATE` message, the socket caches, the prompt loop |
| `ProtoNamingServer` | proto_naming_server.dfy | 1_Project_NFS/NFS/namingServer/namingServer.c |
| `ProtoStorageNode` | proto_storage_node.dfy | 1_Project_NFS/NFS/storageServer/storageServer.c |
| `Protocol` | protocol.dfy | round trips across processes: what one side formats, the other side parses back |

Modelling choices:

- **Pointers become indices.** A hash node's `StorageServer *` becomes the registry
  slot it points into, and a chain becomes a sequence, head first.
- **Characters are bytes.** `hash` reads each `char` as a signed byte, as on x86
  Linux, converted to `unsigned int`. Its 32-bit wrap-around is written out.
- **Each handler call is one atomic step.** Each `recv` yields one whole peer
  `send`, or `None` when it fails. A connection's messages are a sequence, and its
  end is the `recv` that returns 0.
- **The file system is a value.** A listing is a value of the `Listing` datatype,
  in `readdir` order. A directory entry carries what `opendir` yields for it.
- **Missing `sscanf` fields are empty.** When a conversion does not happen, the
  source leaves the local uninitialised; the model reads it as the empty string.
  For the naming server with exactly five header fields, this means an empty path
  list.

Two behaviours of the code worth noting:

- The full naming server's miss reply is `"No server found for the requested path"`.
- The declared path count is parsed and then ignored.

## Model

The table lists the members whose contracts state something. The definitions they are stated about live beside them:
NamingServer.EmptyBuckets (NFS/namingServer.c:17-22), NamingServer.ParseRegistration (NFS/namingServer.c:88-94), NamingServer.ClientReply (NFS/namingServer.c:167-191) and NamingServer.Lookup (NFS/namingServer.c:38-52);
StorageNode.Walk and StorageNode.WalkEntries (NFS/storageServer.c:6-31), StorageNode.DataCommand and StorageNode.Dispatched (NFS/storageServer.c:203-214) and StorageNode.CollectedPaths (NFS/storageServer.c:304-323);
Client.GetServerRequest (NFS/client.c:52), Client.Classified and Client.Lookups (NFS/client.c:223-333);
ProtoNamingServer.ProtoPaths (1_Project_NFS/NFS/namingServer/namingServer.c:147-152), ProtoNamingServer.LookupReply (1_Project_NFS/NFS/namingServer/namingServer.c:65-82), ProtoStorageNode.RequestReply (1_Project_NFS/NFS/storageServer/storageServer.c:32-57), ProtoStorageNode.UpdatedPath (1_Project_NFS/NFS/storageServer/storageServer.c:80-83) and ProtoStorageNode.RegistrationMessage (1_Project_NFS/NFS/storageServer/storageServer.c:112-120).

| member | source | states |
|---|---|---|
| NamingServer.HashOf | NFS/namingServer.c:8-14 | every key lands in a bucket below HASH_TABLE_SIZE (100) |
| NamingServer.HashAccumulator | NFS/namingServer.c:9-12 | the accumulator always fits an unsigned 32-bit int |
| NamingServer.CharAsUnsigned | NFS/namingServer.c:11 | a signed char converted to unsigned int is below 2^32; a 7-bit char keeps its code |
| NamingServer.Hash | NFS/namingServer.c:8-14 | the accumulator loop returns the bucket HashOf defines, below 100 |
| NamingServer.HashOfAscii | NFS/namingServer.c:8-14 | on 7-bit keys, wrapping at every step equals the unbounded fold `h*31 + c` taken mod 2^32; the bucket is that mod 100 |
| NamingServer.ModOfMultipleAdded | NFS/namingServer.c:11 | adding multiples of 2^32 does not change the unsigned result |
| NamingServer.EmptyIndexMisses | NFS/namingServer.c:17-22 | the index `initialize_hash_map` leaves finds no path, holds no nodes, and keeps every chain hashed and every slot below 0 |
| NamingServer.EmptyBucketsCount | NFS/namingServer.c:17-22 | empty buckets hold no nodes |
| NamingServer.FirstMatch | NFS/namingServer.c:42-51 | None iff no node of the chain has the key; otherwise the server of the first node with the key, none before it matching |
| NamingServer.InsertNode | NFS/namingServer.c:25-35 | the index keeps its 100 buckets |
| NamingServer.InsertAll | NFS/namingServer.c:124-128 | the index keeps its 100 buckets across the insert loop |
| NamingServer.LookupAfterInsert | NFS/namingServer.c:25-52 | after `insert(p, s)`, `find(p) == s` and `find(q)` is unchanged for every other q |
| NamingServer.InsertFrame | NFS/namingServer.c:25-35 | insert puts one node at the head of bucket `hash(p)`; older nodes, duplicates included, follow unchanged; other buckets are unchanged; the node count grows by one |
| NamingServer.NodeCountUpdate | NFS/namingServer.c:32-33 | replacing one chain changes the node count by the difference in chain length |
| NamingServer.LookupAfterInsertAll | NFS/namingServer.c:124-128 | after the insert loop every inserted path finds the new slot; every other path finds what it found before |
| NamingServer.InsertAllNodeCount | NFS/namingServer.c:124-128 | the insert loop adds exactly one node per stored path |
| NamingServer.InsertKeepsHashed | NFS/namingServer.c:25-33 | after an insert every node still sits in the bucket its key hashes to, and its key fits the 256-byte field |
| NamingServer.InsertAllRefersBelow | NFS/namingServer.c:124-128 | inserts naming a slot below n keep every node naming a slot below n |
| NamingServer.LookupBelow | NFS/namingServer.h:23 | an index whose nodes name slots below n only yields slots below n |
| NamingServer.HashMap.Buckets | NFS/namingServer.h:27-30 | one chain per bucket of the table |
| NamingServer.HashMap.constructor | NFS/namingServer.c:17-22 | `initialize_hash_map`: every bucket is empty and the index holds no nodes |
| NamingServer.HashMap.Insert | NFS/namingServer.c:25-35 | the table becomes InsertNode of the old table, and every node stays in its hash bucket |
| NamingServer.HashMap.Find | NFS/namingServer.c:38-52 | the chain walk returns the server of the first node with the key in bucket `hash(path)`, or None |
| NamingServer.CollectPaths | NFS/namingServer.c:103-109 | the strtok loop stores the space-separated tokens in order, at most 10, each cut to 255 chars to fit its field |
| NamingServer.ClientRepliesPrefix | NFS/namingServer.c:154-192 | each message of a client connection adds its reply, if any, after the replies to the earlier ones |
| NamingServer.Identify | NFS/namingServer.c:202-214 | registration iff the first message is exactly `STORAGE_SERVER`; a client session iff it is exactly `CLIENT`; nothing otherwise, including a failed recv |
| NamingServer.NamingServer.Registry | NFS/namingServer.h:33-35 | the registry holds exactly `num_storage_servers` slots |
| NamingServer.NamingServer.constructor | NFS/namingServer.c:240-241 | an empty registry and an empty index |
| NamingServer.RegistrationReply | NFS/namingServer.c:71-147 | no reply iff the recv failed; `Invalid registration format` iff fewer than five fields parse; `Registration successful` iff they parse and fewer than 10 servers are registered; the capacity error iff they parse and the registry is full |
| NamingServer.NamingServer.HandleStorageServerRegistration | NFS/namingServer.c:71-147 | the reply is RegistrationReply of the received text and the old count; the registry and index move by RegistrationStep: on success the record (live flag 1) goes to slot `count`, the count grows by one and every stored path is inserted naming that slot, so each stored path finds that slot and every other path's lookup is unchanged; any other reply leaves count, slots and index unchanged |
| NamingServer.NamingServer.AddServer | NFS/namingServer.c:115-128 | the record goes to slot `count`, the other slots are unchanged, the count grows by one, and lookups of its paths yield the slot while other lookups are unchanged |
| NamingServer.NamingServer.InsertPaths | NFS/namingServer.c:124-128 | the loop inserts the paths in order, all naming the given slot |
| NamingServer.NamingServer.AnswerRequest | NFS/namingServer.c:163-191 | one message: `GET_SERVER` gets the reply for its path, any other command gets none |
| NamingServer.NamingServer.ReplyForPath | NFS/namingServer.c:175-189 | the address of the indexed slot (`"<ip> <client_port>"`) on a hit, the miss text otherwise |
| NamingServer.NamingServer.HandleClientRequest | NFS/namingServer.c:150-194 | the replies of a connection are those of its messages in order until recv fails; the registry and index are only read |
| NamingServer.NamingServer.ConnectionHandler | NFS/namingServer.c:196-220 | non-registration connections leave count, slots and index unchanged; an unknown identity gets no reply; a client session gets the replies to its messages; a registration gets exactly the RegistrationReply of its second message (none when that recv fails) and moves the registry and index by RegistrationStep |
| StorageNode.ChildPath | NFS/storageServer.c:21 | `snprintf("%s/%s")`: the prefix of `base + "/" + name` that fits 255 chars |
| StorageNode.ChildPathUnderBase | NFS/storageServer.c:21 | an entry's path begins with its directory's path and fits the buffer |
| StorageNode.GetAccessiblePaths | NFS/storageServer.c:6-31 | the walk appends exactly Walk(base, listing) after the first `num_paths` entries, leaves those and the entries after the new count unchanged, and returns the new count |
| StorageNode.VisitEntry | NFS/storageServer.c:16-28 | one entry: `.` and `..` skipped, a regular file appended as base/name, a directory recursed into, any other type ignored |
| StorageNode.WalkEntriesGrows | NFS/storageServer.c:15-29 | reading more entries never yields fewer paths |
| StorageNode.WalkUnderBase | NFS/storageServer.c:6-31 | every path the walk appends begins with the base and fits a 256-byte field |
| StorageNode.WalkEntriesUnderBase | NFS/storageServer.c:15-29 | the same for the first k entries of a directory |
| StorageNode.WalkOfFlatDirectory | NFS/storageServer.c:21-25 | a directory of regular files yields one path base/name per entry, in readdir order |
| StorageNode.CollectedPathsFit | NFS/storageServer.c:309-323 | every collected path fits a 256-byte field when the arguments do |
| StorageNode.CollectedPathsGrows | NFS/storageServer.c:309-323 | more arguments never yield fewer paths |
| StorageNode.CollectAccessiblePaths | NFS/storageServer.c:304-323 | the argument loop fills the array with the walk of each directory argument, or a non-directory argument's own path, in order |
| StorageNode.BuildRegistrationMessage | NFS/storageServer.c:330-336 | the message is the five-field header, declaring the number of paths, followed by `" " + path` for each collected path in order |
| StorageNode.AppendPaths | NFS/storageServer.c:333-336 | the strcat loop appends `" " + path` for each path in order and keeps the text before it |
| StorageNode.DataCommandOfRequest | NFS/storageServer.c:203-214 | `READ p` is a read of p, `DELETE p` a delete of p, `WRITE` a write, anything else is ignored |
| StorageNode.UntilClosedShape | NFS/storageServer.c:193-215 | the session keeps a prefix of the actions; only its last can close the socket, and it stops early only when that one did |
| StorageNode.SessionActionsShape | NFS/storageServer.c:189-219 | a session answers a prefix of its messages in order, one dispatched action each, ending early only after a read or write |
| StorageNode.HandleClient | NFS/storageServer.c:189-219 | the receive loop produces exactly SessionActions of the messages |
| StorageNode.SessionActionsStep | NFS/storageServer.c:193-215 | one pass: the first message's action, then the rest unless it closed the socket |
| Client.GetStorageServer | NFS/client.c:45-78 | the record is zeroed first: socket 0 always, all zero on a failed recv, and a non-empty ip is the reply's first word |
| Client.CreateMessage | NFS/client.c:138 | `"CREATE " + path`, followed by `"/"` iff `is_directory` is nonzero |
| Client.NamingConnect | NFS/client.c:18-42 | a cached socket is returned unchanged with nothing sent; otherwise the cache ends as the result, and `CLIENT` is sent iff the connect succeeded |
| Client.IdentifiesAtMostOnce | NFS/client.c:18-42 | over any run of calls the client sends `CLIENT` at most once, and never once a socket is cached |
| Client.NamingConnection.constructor | NFS/client.c:15 | the cache starts at -1 |
| Client.NamingConnection.ConnectToNamingServer | NFS/client.c:18-42 | the global cache and the result are as NamingConnect states |
| Client.ConnectToStorageServer | NFS/client.c:173-201 | a socket other than -1 is returned unchanged; otherwise the new socket is stored in the record and returned on success, -1 on failure; ip and port unchanged |
| Client.StorageSocketAsWrittenIsZero | NFS/client.c:247-258 | as written, every storage command runs on socket 0 and never connects |
| Client.GetStorageServerFixed | NFS/client.c:45-78 | corrected: a record exists only with a non-empty ip, and it is not yet connected (socket -1) |
| Client.StorageSocketFixed | NFS/client.c:247-258 | corrected: a command runs iff the lookup gave details and the connect succeeded, on the new socket |
| Client.ClassifyWords | NFS/client.c:237-332 | an empty line is skipped; `exit` iff the first word is exit; unknown iff the first word is none of the six commands; `upload` and `download` carry the second and third words (empty when missing) as their two paths; `create_file`, `create_dir` and `delete` pick their own command with the second word as the path |
| Client.ClassifyLineOfWords | NFS/client.c:230-237 | a line typed as blank-separated words scans back to those words and is classified by them |
| Client.DeleteLineClassified | NFS/client.c:312-328 | the line `delete p` is the delete of p |
| Client.UntilExitShape | NFS/client.c:241-243 | what is read before `exit` is an exit-free prefix of the commands, and `exit` follows it if anything does |
| Client.LookupsBeforeExit | NFS/client.c:223-333 | the lookups depend only on the commands before `exit`, and each is the `GET_SERVER` request for the first path of a storage command |
| Client.PromptLoop | NFS/client.c:223-333 | the prompt loop sends exactly the lookups of the classified lines, stopping after `exit`, the end of input, or the lookup of the first `delete` |
| Client.DeleteEndsLookups | NFS/client.c:147-160 | after a `delete` the client sends no further lookup: `delete_item` blocks in `recv` on the naming-server socket, so the lookups end with the delete's own |
| Client.PromptStep | NFS/client.c:230-332 | one pass: the first line's lookup if it uses storage, then the rest only if it was neither `exit` nor `delete` |
| ProtoNamingServer.Identify | 1_Project_NFS/NFS/namingServer/namingServer.c:116-171 | client iff the buffer starts with `CLIENT`; registration iff it does not but starts with `STORAGE`; otherwise the socket is closed |
| ProtoNamingServer.Overlay | 1_Project_NFS/NFS/namingServer/namingServer.c:111-131 | a second recv into the uncleared buffer overwrites its start and the rest of the first message stays |
| ProtoNamingServer.ParseHeader | 1_Project_NFS/NFS/namingServer/namingServer.c:134 | three fields parse only if the buffer starts with `STORAGE`; then the ip is a word and the path text is a non-empty line |
| ProtoNamingServer.RegistrationResult | 1_Project_NFS/NFS/namingServer/namingServer.c:131-166 | registered iff the second recv succeeds, the parse yields three fields and the count is below 100; refused when full; the record holds the ip, the port and the tokenised paths |
| ProtoNamingServer.ProtoPathsBounds | 1_Project_NFS/NFS/namingServer/namingServer.c:147-152 | at most 10 stored paths, each non-empty, comma-free and at most 100 chars |
| ProtoNamingServer.CollectPaths | 1_Project_NFS/NFS/namingServer/namingServer.c:147-152 | the strtok loop stores exactly ProtoPaths of the text |
| ProtoNamingServer.RequestedPath | 1_Project_NFS/NFS/namingServer/namingServer.c:55-62 | the key is at most 100 chars and is the whole query when that fits |
| ProtoNamingServer.FindServer | 1_Project_NFS/NFS/namingServer/namingServer.c:65-76 | the first of the first `count` records listing the key, none earlier listing it; None iff none lists it |
| ProtoNamingServer.FindServerAgrees | 1_Project_NFS/NFS/namingServer/namingServer.c:65 | the lookup reads only the first `count` records |
| ProtoNamingServer.EarliestRegistrationWins | 1_Project_NFS/NFS/namingServer/namingServer.c:65-76 | corrected: with a record written to slot `count`, a query finds what it found before, else the new record if it lists the key |
| ProtoNamingServer.UnwrittenTableMisses | 1_Project_NFS/NFS/namingServer/namingServer.c:65-82 | as written: a table of zero records answers every query with `Error: Path not found` |
| ProtoNamingServer.ProtoNamingServer.constructor | 1_Project_NFS/NFS/namingServer/namingServer.c:24-25 | zero records and a zero count |
| ProtoNamingServer.ProtoNamingServer.HandleRegistration | 1_Project_NFS/NFS/namingServer/namingServer.c:124-166 | as written: the outcome is RegistrationResult and the count grows by one iff registered, but the table is never written |
| ProtoNamingServer.ProtoNamingServer.HandleRegistrationFixed | 1_Project_NFS/NFS/namingServer/namingServer.c:124-166 | corrected: the same outcome and count, and a registered record goes to slot `count`, the other slots unchanged |
| ProtoNamingServer.ProtoNamingServer.HandleClient | 1_Project_NFS/NFS/namingServer/namingServer.c:51-83 | the reply is the address of the first record listing the key, else `Error: Path not found`; with the table never written it is always the miss |
| ProtoNamingServer.ProtoNamingServer.ConnectionHandler | 1_Project_NFS/NFS/namingServer/namingServer.c:107-173 | the first message picks the client handler, the registration branch or a close; the table is never written and the count grows only for a registration |
| ProtoStorageNode.WordAfter | 1_Project_NFS/NFS/storageServer/storageServer.c:38 | the word after the tag is empty or a `%s` word |
| ProtoStorageNode.ReadRequestReply | 1_Project_NFS/NFS/storageServer/storageServer.c:36-56 | `READ p` on a path p gets the data reply for p iff p is listed, else `Error: File not found\n` |
| ProtoStorageNode.UpdatePathMessage | 1_Project_NFS/NFS/storageServer/storageServer.c:80-83 | the message `UPDATE_PATH p` carries exactly the path p |
| ProtoStorageNode.UpdatesOfMessages | 1_Project_NFS/NFS/storageServer/storageServer.c:69-89 | a stream of `UPDATE_PATH p` messages, one per path, appends exactly those paths, in order |
| ProtoStorageNode.Carried | 1_Project_NFS/NFS/storageServer/storageServer.c:80-86 | a message adds at most one path |
| ProtoStorageNode.UpdatesStep | 1_Project_NFS/NFS/storageServer/storageServer.c:69-89 | each message extends the updates by what it carries |
| ProtoStorageNode.UpdatesPrefixBound | 1_Project_NFS/NFS/storageServer/storageServer.c:69-89 | a prefix of the messages carries no more paths than all of them |
| ProtoStorageNode.JoinedSoFarStep | 1_Project_NFS/NFS/storageServer/storageServer.c:115-120 | one pass of the strcat loop appends the next path and a comma unless it is the last |
| ProtoStorageNode.BuildStep | 1_Project_NFS/NFS/storageServer/storageServer.c:115-120 | the strcat loop's invariant survives one pass |
| ProtoStorageNode.JoinedSoFarAll | 1_Project_NFS/NFS/storageServer/storageServer.c:115-120 | after the loop the text is the paths joined by commas, with no trailing comma |
| ProtoStorageNode.ProtoStorageNode.Paths | 1_Project_NFS/NFS/storageServer/storageServer.c:14-15 | the listed paths are `paths[0..num_paths)` |
| ProtoStorageNode.ProtoStorageNode.constructor | 1_Project_NFS/NFS/storageServer/storageServer.c:14-15 | no paths listed |
| ProtoStorageNode.ProtoStorageNode.LoadArguments | 1_Project_NFS/NFS/storageServer/storageServer.c:135-148 | started iff at least four arguments; then the paths are `argv[4..]` cut to the buffer; otherwise nothing changes |
| ProtoStorageNode.ProtoStorageNode.BuildRegistrationMessage | 1_Project_NFS/NFS/storageServer/storageServer.c:111-120 | `"STORAGE <naming server ip> <port> "` followed by the paths joined by commas |
| ProtoStorageNode.ProtoStorageNode.HandleClientRequest | 1_Project_NFS/NFS/storageServer/storageServer.c:23-62 | the found-flag loop gives the reply RequestReply states |
| ProtoStorageNode.ProtoStorageNode.HandleNamingMessage | 1_Project_NFS/NFS/storageServer/storageServer.c:80-86 | `UPDATE_PATH p` appends p at `paths[num_paths]` and increments the count; earlier entries and the rest of the array are unchanged; other messages change nothing |
| ProtoStorageNode.ProtoStorageNode.ListenForNamingServer | 1_Project_NFS/NFS/storageServer/storageServer.c:65-93 | the listed paths stay and the carried updates follow them in order |
| CText.ScanWordRoundTrip | NFS/namingServer.c:88 | `%s` reads back a word followed by white space or the end |
| CText.ScanIntRoundTrip | NFS/namingServer.c:88 | `%d` reads back the decimal text sprintf writes for an int, when no digit follows it |
| CText.ScanNegativeRoundTrip | NFS/namingServer.c:88 | `%d` reads back a negative int, sign included, as sprintf writes it |
| CText.ScanLineRoundTrip | NFS/namingServer.c:88 | `%[^\n]` reads back a newline-free non-empty text whole |
| CText.TokensOfJoin | NFS/namingServer.c:103-109 | strtok returns exactly the non-empty, delimiter-free parts joined by the delimiter, in order |
| CText.WordsOfJoin | NFS/namingServer.c:170 | the white-space words of words joined by blanks are those words |
| Protocol.RegistrationRoundTrip | NFS/storageServer.c:330-336 | for an ip and paths with no white space, the naming server's parse recovers the ip, the three ports, the declared count (the number of paths) and the joined paths, and stores the first 10 paths, each cut to fit |
| Protocol.RegistrationHeaderRoundTrip | NFS/namingServer.c:88-94 | the five header fields read back whatever follows them |
| Protocol.RegisteredPathsOfJoin | NFS/namingServer.c:103-109 | the space tokenisation of joined words stores the first 10, cut to 255 chars |
| Protocol.PathsTextRoundTrip | NFS/namingServer.c:88 | `%[^\n]` after the count recovers the blank-joined paths, or nothing |
| Protocol.LookupRequestWords | NFS/client.c:52 | for a whitespace-free path, the request reads as the command `GET_SERVER` and that path |
| Protocol.LookupRequestRoundTrip | NFS/namingServer.c:170-189 | a client's request for p is answered with the address of the slot the index names for p, or the miss text |
| Protocol.ClientReplyOfWords | NFS/namingServer.c:170-171 | a message read as `GET_SERVER` and a path gets the reply for that path |
| Protocol.AddressReplyRoundTrip | NFS/client.c:71 | the client's `"%s %d"` recovers the ip and client port the naming server formatted with `"%s %d"` |
| Protocol.ScanIntOfLetter | NFS/client.c:71 | `%d` fails on text starting with neither a sign nor a digit, so the port stays 0 |
| Protocol.MissReplyParse | NFS/client.c:71 | the miss reply parses as ip `No` with port 0 |
| Protocol.NoWordParse | NFS/client.c:71 | any reply starting with `No s` parses as ip `No` with port 0 |
| Protocol.LookupEndToEnd | NFS/client.c:45-78 | end to end, the client gets the registered ip and client port of the indexed slot, or `("No", 0)` |
| Protocol.CreateIsIgnored | NFS/storageServer.c:205-214 | the client's `CREATE` message is ignored by the storage server's dispatch |
| Protocol.ProtoMessageShape | 1_Project_NFS/NFS/storageServer/storageServer.c:112-120 | the prototype's message, field by field |
| Protocol.StorageTag | 1_Project_NFS/NFS/namingServer/namingServer.c:116-124 | the message passes the `STORAGE` prefix test and not the `CLIENT` one |
| Protocol.ParseHeaderOfScans | 1_Project_NFS/NFS/namingServer/namingServer.c:134 | after the tag, the word and the int, the rest of the line decides the parse |
| Protocol.ProtoHeaderRoundTrip | 1_Project_NFS/NFS/namingServer/namingServer.c:134 | the prototype's parse recovers the ip and the port of its own header |
| Protocol.ProtoPathsOfJoin | 1_Project_NFS/NFS/namingServer/namingServer.c:147-152 | the comma tokenisation of comma-joined paths stores the first 10 |
| Protocol.ProtoRegistrationRoundTrip | 1_Project_NFS/NFS/storageServer/storageServer.c:112-120 | for non-empty paths with no comma or newline, the prototype's parse recovers the ip, the port and the joined list, and stores the first 10 paths |
| Protocol.ProtoZeroPathsDropped | 1_Project_NFS/NFS/storageServer/storageServer.c:112 | with no paths, the parse yields two fields and the registration is dropped |
| Protocol.ProtoSingleSend | 1_Project_NFS/NFS/namingServer/namingServer.c:113-134 | the node's single message selects registration, but the registration is processed only if the same text arrives a second time |
| Protocol.OverlaySelf | 1_Project_NFS/NFS/namingServer/namingServer.c:113-131 | receiving the same text again leaves the buffer unchanged |

## Left out

- Sockets, threads and mutexes are not modelled. Each handler call runs as one atomic step. Each `recv` delivers exactly one whole `send`, with no TCP coalescing or splitting.
- Receive-buffer caps and C array overflow are not modelled. The caps are 1023 bytes in the naming server (NFS/namingServer.h:6), 4095 bytes in the client's and the storage server's `recv` (NFS/client.c:4, NFS/storageServer.h:4), 4095 characters per line in the client's `fgets`, and 1024 bytes in the prototype. That covers `%s` into `char[16]` or `char[32]`, `strcpy` into a node, and `sprintf` then `strcat` into `reg_msg`. Where an array bound matters, a requires states it:
  - 100 collected accessible paths;
  - 10 prototype paths;
  - a path shorter than 256 characters for `hash_map_insert`.
- ProtoStorageNode.ProtoStorageNode.HandleNamingMessage: requires room in `paths[]`. The source has no bound check and would write past the array.
- ProtoStorageNode.ProtoStorageNode.LoadArguments: requires at most 10 path arguments, for the same reason.
- StorageNode.GetAccessiblePaths: requires room in the out-array, which the source does not check.
- StorageNode.CollectAccessiblePaths: requires that at most 100 paths are collected, which the source does not check.
- Both prototype processes bound their inputs for the same reason. A `strncpy` that fills its field leaves no terminator, and the model does not follow the read past it.
- The registration paths with exactly five header fields: the source leaves `paths_str` uninitialised (undefined behaviour). The model takes the text as empty, so such a server registers with no paths.
- Other `sscanf` conversions that do not happen leave locals uninitialised. The model reads them as empty. That covers the naming server's `command` and `path` (a client message with no word gets no reply), the storage server's `command` and `path`, and the prototype storage server's `new_path` and `requested_path`.
- `%d` overflow is not modelled: integers are unbounded.
- Client.GetStorageServer: the 16-byte `ip` field is not modelled, so an over-long first word is kept whole.
- `ip_address` fitting 15 characters is not stated. Registration copies an unbounded `%s` into it.
- `is_active` is set to 1 at registration, and no operation clears it.
- `hash_map_print` is diagnostic output and is not modelled.
- `get_local_ip` (NFS/helper.c) is left out. The storage server's own ip is a parameter of the registration message.
- The storage server's file handlers are local file I/O and are not modelled: `handle_create`, `handle_delete`, `handle_read`, `handle_write`, `handle_get_file_info` and `handle_stream_audio`. The model keeps only one fact about them: `handle_read` and `handle_write` close the client socket, so a session ends after the first `READ` or `WRITE`.
- `handle_naming_server` only prints what it receives and is not modelled.
- The STORAGE_SERVER identity send (NFS/storageServer.c:292-297) and the registration send are transport. Protocol.RegistrationRoundTrip covers the message itself.
- The client's file transfer is not modelled: `upload_file`, `download_file` and `delete_item`. The client models the request format, the reply parse, the `CREATE` message, the socket caches and the naming-server lookups the prompt loop makes. Client.PromptLoop does not model what each command then does. For `delete` it models one fact: `delete_item` first waits in `recv` on the naming-server socket, so the loop makes no further lookup.
- Client.PromptLoop: the `continue` branches after a failed lookup or connect are not modelled. As written they never fire (Client.StorageSocketAsWrittenIsZero). With the corrected record, a failed lookup for a `delete` would go on with the next line, and Client.Lookups does not follow that case.
- ProtoStorageNode.ProtoStorageNode.ListenForNamingServer: the thread is taken to receive on the naming socket. The source hands it `&naming_sock`, the address of a local of `register_with_naming_server`, which then returns, so the thread may read a dead stack slot. Threads are not modelled, so that race is not either.
- The prototype naming server's idle reader `handle_storage_server` is not modelled.
- 1_Project_NFS/NFS/clients/client.c is not part of this model.
- `opendir`, `readdir` and `d_type` become a finite `Listing` tree, so symlink loops cannot arise.
- The prototype storage node's ip is the naming server's ip argument, as the source has it. ProtoStorageNode.ProtoStorageNode.BuildRegistrationMessage states this.

## Findings

| source | as written | input that shows it | evidently intended | confidence | as-written member | corrected member |
|---|---|---|---|---|---|---|
| NFS/client.c:46-47 | `get_storage_server` zeroes the record, so `socket` is 0; the `storage_server.socket == -1` check at line 248 never fires; `connect_to_storage_server` returns 0 without connecting | any reply, e.g. `"No server found for the requested path"` or a failed recv: the command still runs on socket 0 | a record with socket -1 when details were received, and the `continue` otherwise | not executed | Client.StorageSocketAsWrittenIsZero | Client.StorageSocketFixed |
| 1_Project_NFS/NFS/namingServer/namingServer.c:138-159 | an accepted registration fills a heap copy and increments `storage_server_count`, but never writes `storage_servers[]` | register `STORAGE 10.0.0.1 9000 /a`, then query `/a`: the reply is `Error: Path not found` | the record copied into `storage_servers[storage_server_count]` | not executed | ProtoNamingServer.UnwrittenTableMisses | ProtoNamingServer.EarliestRegistrationWins |
