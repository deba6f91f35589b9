# BlueRedis: a verified model

BlueRedis is a Redis-like server on a C++20 coroutine runtime. This project models its
hardest parts in Dafny and proves what they promise, for every input and every
interleaving.

**The keyspace.** Sixteen databases of 128 shards hold five independent types under each
name (`Keyspace`, `ShardOps`, `Server`). Every write command is a method on shards, proved
to do what a plain map per database would do, and to reply accordingly; `Effects` says what
that is, name by name and element by element; `FlatMachine` proves what every run keeps and
exactly when the shards can be seen from outside. `SortedSet` and `SkipList` are the
sorted-set index: a sequence ordered by score and member, and the towers of links with
spans that implement it. `Scan` is the incremental SCAN cursor.

**Getting data out and in again.** `Text` and `Resp` are decimal text and the Redis
serialization protocol, `StreamParser` the incremental reader. `Snapshot` and
`Replication` write the keyspace as a command stream and replay it on a replica; `Transfer`
is the connection between the two, with the rules by which the replica strips replies, ends
the transfer and refuses what passes its limit. `Delimited` and `DumpFile` write the keyspace
as lines of text and load them. Both round trips are stated as if-and-only-if.

**The command table.** `CommandTable` is the median-of-three quicksort over an array, the
insertion sort beside it, and the lookup by halving.

**The concurrent protocols.** Each is a set of atomic steps of any number of threads; a
claim is proved for every state any sequence of steps can reach: `Scheduler` (work
stealing), `TaskLife` (top-level coroutines), `WaitGroup`, `ConnPool` (HTTP connections),
`Crawler`, `Locks` (shard locks), `Aof` (the append-only file). `Epoll` and `Timers` are
classes whose methods are the critical sections; their invariants hold between any calls.
`Tally` counts over lists of threads.

Where the code does not do what it is meant to do, the model follows the code, a lemma
names an input or a run that shows it, and another says exactly when the promise holds:

- a text with a line end inside cannot be read back from the protocol (`RoundTripIff`). When
  a transfer ends, the replica has its master's data exactly when no text has one and the last
  command that writes data has arrived completely (`Replicate`, `PartMatchesIff`). Three things
  can keep it from arriving: the transfer ends at the first received piece with "EOF" in it, so
  some cut of the stream loses data exactly when an argument has "EOF" in it
  (`EofCutsShortIff`, `EofInData`); a command longer than max_command_size never arrives, and
  with 65536 + 8191 bytes of room above the longest command nothing is refused
  (`TooLongNeverArrives`, `AllAccepted`); and an argument that ends in "+OK" can be taken for a
  reply (`LookalikeNeedsOk`, `ReplyLookalike`). Without these three, every cut of the stream
  will do (`EveryCutMatches`);
- a dump loads back exactly when no text has the field separator or a line end in it
  (`LoadOfSaveIff`); a dump that names a member twice with different scores breaks the
  sorted-set index for good (`IndexKeptIff`);
- SMOVE, RENAME and RENAMENX inside one shard use a reference into a flat_hash_map after an
  insertion that may have moved its elements; whether they are defined is decided by the
  names and the growth of the table (`GrowthDecides`, `RunUndefinedIff`), and everything
  that is proved of them is proved for the defined runs;
- RENAME of a sorted set onto a name that is a string and also a sorted set loses the data
  if the two names are in different shards (`RenameCanLoseData`, `RenameBranchesAgreeIff`);
- over any calls on one connection, SCAN 0 starts over exactly when it is the first call or the
  last reply was 0, and otherwise goes on with the last scan, in whatever database is selected
  by then (`Session`);
- the quicksort passes index -1 as an unsigned bound whenever it comes to an ordered pair
  at the start of the table (`Wraps`, `LowPartEmptyIff`);
- a coroutine's finalizing flag goes down before `final_suspend` returns, so its frame can
  be destroyed while that function is still running, which the comment there rules out
  (`FlagTooShort`, `ReleasedCanBeDestroyed`, `DestroyedAfterReturn`);
- `wait_all` can still come to leave exactly when no task is doomed (`CanLeaveIff`). A task is
  when its callback has been refused, or the scheduler is stopping and the task is not yet
  submitted, or awaits something whose waker goes through the scheduler, or is queued with no
  worker left to look for it; each is reached from the start (`DroppedRun`, `WakeRefusedRun`,
  `WorkersGoneRun`);
- a WaitGroup used again before the last Done of a round has swapped can wake a waiter of
  the new round early, and otherwise never does (`ReuseWakesEarly`, `ResumedAfterZero`); a
  stopping scheduler leaves waiters suspended (`AllResumedIff`); a coroutine resumed inside
  `await_suspend` can block on its own thread's lock for ever, and `CanBlockIff` says in which
  reachable states that can still happen to a thread (`BlockedRun`, `BlockedForEver`);
- a crawler worker can leave while work is still to come (`LeavesEarlyIff`), but never so
  that work is left (`AllDone`);
- over any calls on a descriptor, an event registered by ticket wakes an earlier handle exactly
  when that handle was registered since the event was last removed (`WakesWaitingIff`);
  resetting a timer "from its start" never moves it (`Timers.TimerManager.Reset`).

## Model

| member | source | states |
|---|---|---|
| `Text.FromInt` | src/util/resp_parser.cpp:126-175 | the text of a number is non-empty and made of digits and a sign only |
| `Text.IntRoundTrip` | src/util/resp_parser.cpp:254-404 | std::to_string followed by std::stoll or std::stoi gives the number back, whatever follows that does not begin with a digit |
| `Text.ReadIff` | src/util/resp_parser.cpp:254-404 | a number is read exactly from a text of white space, a sign or none, and digits, with anything behind that is no digit, whose value is in range |
| `Text.DigitsPlaces` | src/util/resp_parser.cpp:254-404 | one more digit behind a number makes it ten times as much and that digit |
| `Text.StoullIff` | src/util/scan_cursor.h:70-72 | std::stoull reads a number of less than 65 bits and gives its remainder modulo 2^64 |
| `Text.UpperLetters` | redis_command/command/command_handler_table.cpp:19 | only the 26 small letters of a command name change, each into its capital |
| `Resp.FindCrlf` | src/util/resp_parser.cpp:254-404 | the first line end at or after a position, or that there is none |
| `Resp.ParseValue` | src/util/resp_parser.cpp:254-404 | the reader with its loop over array elements computes the recursive description of the protocol |
| `Resp.ParseArrayBody` | src/util/resp_parser.cpp:358-404 | the element loop reads exactly count values one after the other, or nothing |
| `Resp.ParseExtended` | src/util/resp_parser.cpp:254-404 | once a value has been read, bytes that arrive later never change it |
| `Resp.ParseOfBulk` | src/util/resp_parser.cpp:307-357 | a bulk string without a line end inside is read back, whatever follows it |
| `Resp.ParseOfEncode` | src/util/resp_parser.cpp:126-404 | every nested value without a line end inside is read back from its encoding, whatever follows it |
| `Resp.ParseTransparent` | src/util/resp_parser.cpp:254-404 | whatever the bytes, no text in a value that was read contains a line end |
| `Resp.RoundTripIff` | src/util/resp_parser.cpp:126-404 | a value survives encoding and reading exactly when no text in it contains a line end and no part of it is unset |
| `Resp.ParseIff` | src/util/resp_parser.cpp:254-404 | the parser reads a value from the front of the data exactly when one of the texts that stand for it is there, the lax forms of numbers included |
| `Resp.EncodeForm` | src/util/resp_parser.cpp:126-253 | the encoder writes one of the texts that stand for its value |
| `StreamParser.DecodeInPieces` | src/util/resp_parser.cpp:406-457 | decoding a stream in two pieces gives the values and the unread rest of decoding it at once, for all bytes and every cut |
| `StreamParser.DecodeRestStuck` | src/util/resp_parser.cpp:406-457 | what is left unread contains no complete value |
| `StreamParser.RespStreamParser.Feed` | src/util/resp_parser.cpp:406-417 | accepted bytes are appended to the pending ones; refused exactly when they, the pending and the consumed bytes would pass the limit |
| `StreamParser.RespStreamParser.Next` | src/util/resp_parser.cpp:418-452 | delivers the first pending value and drops exactly its bytes; the consumed bytes stay in front until the buffer is empty or more than 65536 have piled up |
| `StreamParser.RespStreamParser.Drain` | src/util/resp_parser.cpp:418-452 | calling next until it fails delivers all complete pending values in order |
| `StreamParser.DecodeChunks` | src/util/resp_parser.cpp:406-457 | fed in any chunks, the parser accepts exactly as many as the limit allows and delivers what those decode to |
| `StreamParser.FormatIsEncode` | redis_command/modules/AOF.cpp:202-212 | formatCommand writes what the encoder writes for an array of bulk strings |
| `StreamParser.DecodeCleanStream` | redis_command/modules/AOF.cpp:202-212 | a stream of commands without line ends inside arguments decodes to those commands, then to what follows |
| `StreamParser.UncleanStuck` | src/util/resp_parser.cpp:307-404 | a command with a line end inside an argument is never read, whatever follows |
| `StreamParser.DecodeStream` | src/util/resp_parser.cpp:406-457 | a command stream decodes to its longest front of clean commands and to nothing after that |
| `StreamParser.PartStuck` | src/util/resp_parser.cpp:254-404 | a proper part of a clean command is not taken for a value |
| `StreamParser.PartDecodes` | src/util/resp_parser.cpp:406-457 | wherever a clean command stream breaks off, exactly the complete commands have been read and the rest is part of the next one |
| `StreamParser.NothingRefused` | src/util/resp_parser.cpp:406-457 | if the longest command, a piece and the bytes not yet compacted always fit, every piece is accepted, however the stream is cut |
| `SortedSet.Trichotomy` | src/util/skiplist.h:441-449 | the order by score and then member is total and strict |
| `SortedSet.Transitive` | src/util/skiplist.h:441-449 | that order is transitive |
| `SortedSet.InsertSorted` | src/util/skiplist.h:191-256 | insertion keeps the index strictly ordered |
| `SortedSet.InsertElements` | src/util/skiplist.h:191-256 | insertion adds exactly the new entry |
| `SortedSet.RemoveElements` | src/util/skiplist.h:258-301 | removal takes out exactly the given entry |
| `SortedSet.SortedUnique` | src/util/skiplist.h:441-449 | an ordered index is determined by its entries |
| `SortedSet.InsertAgrees` | redis_command/command/command_handler_table.cpp:2421-2473 | a new member in both structures keeps index and score map in agreement |
| `SortedSet.RemoveAgrees` | redis_command/command/command_handler_table.cpp:2542-2585 | a member out of both structures keeps them in agreement |
| `SortedSet.ReplaceAgrees` | redis_command/command/command_handler_table.cpp:2421-2473 | removing the old entry and inserting the new one is an update of the score map |
| `SortedSet.WithoutAgrees` | redis_command/command/command_handler_table.cpp:2823-2883 | dropping any set of members from both keeps them in agreement |
| `SortedSet.DropIsFilter` | redis_command/command/command_handler_table.cpp:2542-2585 | whatever order entries are dropped in, the index left is the filtered one |
| `SkipList.NextWith` | src/util/skiplist.h:225-253 | where every link leads after a tower is put in at a position |
| `SkipList.NextLess1` | src/util/skiplist.h:276-295 | where every link leads after a tower is taken out |
| `SkipList.CutWith` | src/util/skiplist.h:225-252 | the link over the new node is cut in two with the spans insert computes from ranks, and grows by one above the tower |
| `SkipList.KeptWith` | src/util/skiplist.h:225-252 | all other links and spans stay right after an insertion |
| `SkipList.JoinLess1` | src/util/skiplist.h:281-293 | the two links around a removed node become one with the span remove computes; a link over it shrinks; the pointer comparison tells the two cases apart |
| `SkipList.InsertLevel` | src/util/skiplist.h:225-252 | one turn of the splice loop makes one level right |
| `SkipList.RemoveLevel` | src/util/skiplist.h:281-293 | one turn of the unlink loop makes one level right |
| `SkipList.Search` | src/util/skiplist.h:191-207 | the descent stops, on every level, at the last node before the key, and rank counts exactly the smaller keys |
| `SkipList.Raise` | src/util/skiplist.h:217-228 | levels not used before start with the head spanning the whole list |
| `SkipList.Splice` | src/util/skiplist.h:235-252 | after both loops every level, at any height drawn, is linked and spanned right |
| `SkipList.Unlink` | src/util/skiplist.h:281-293 | after the loop every level is right without the removed node |
| `SkipList.LowerGood` | src/util/skiplist.h:295-298 | dropping an empty top level keeps the list right |
| `SkipList.InsertAtCount` | src/util/skiplist.h:191-256 | insertion into the ordered sequence is insertion at the rank the search found |
| `SkipList.RemoveAtCount` | src/util/skiplist.h:258-301 | removal from the ordered sequence is removal at the rank the search found |
| `SkipList.SkipList.Add` | src/util/skiplist.h:191-256 | for any height drawn the list's contents become the ordered insertion, and all links and spans are right again |
| `SkipList.SkipList.Delete` | src/util/skiplist.h:258-301 | the contents lose exactly the key; true is returned exactly when it was there |
| `SkipList.SkipList.Contains` | src/util/skiplist.h:303-319 | finds a key exactly when it is in the contents |
| `SkipList.SkipList.GetByIndex` | src/util/skiplist.h:321-333 | the entry at an index, nothing outside the range |
| `SkipList.SkipList.GetRank` | src/util/skiplist.h:336-354 | the sum of spans is the key's position, -1 if it is absent |
| `Keyspace.ShardIndex` | redis_command/server_data.h:267-270 | the shard index is always in range |
| `Keyspace.ShareShardIff` | redis_command/server_data.h:267-270 | two names share a shard exactly when their hashes are a multiple of 128 apart |
| `Keyspace.ViewOfWrite` | redis_command/server_data.h:277-285 | a change to one shard at a name that belongs there changes the flat view at that name only and keeps every name in its place |
| `Keyspace.ViewDetermines` | redis_command/server_data.h:53-86 | with every name in its place, the flat view determines the shards |
| `Keyspace.ZPutAgrees` | redis_command/command/command_handler_table.cpp:2421-2473 | writing one score keeps index and score map in agreement |
| `Keyspace.ZAddPairsAgree` | redis_command/command/command_handler_table.cpp:2421-2473 | so does a whole ZADD, also when it stops at a bad score |
| `Keyspace.RenameBranchesAgreeIff` | redis_command/command/command_handler_table.cpp:3181-3347 | the one-shard and two-shard branches of RENAME do the same exactly unless a reference goes stale in the shared shard, or a sorted set meets a different one that survived under the new name |
| `Keyspace.RenameNxBranchesAgreeIff` | redis_command/command/command_handler_table.cpp:3349-3520 | both branches of RENAMENX do the same exactly unless a reference goes stale |
| `Keyspace.SMoveBranchesAgreeIff` | redis_command/command/command_handler_table.cpp:2355-2418 | so for SMOVE |
| `Keyspace.RenameMovesEverythingIff` | redis_command/command/command_handler_table.cpp:3181-3347 | exactly when RENAME leaves all of the old name's data, and nothing else, under the new name |
| `Keyspace.RenameMovesEverything` | redis_command/command/command_handler_table.cpp:3181-3347 | when each name is held by at most one type, it does exactly unless the names share a shard, the value is not a hash, and the table grows |
| `Keyspace.GrowthDecides` | redis_command/command/command_handler_table.cpp:3181-3520 | inputs for which growth alone decides between success and a stale reference, for RENAME, RENAMENX and SMOVE |
| `Keyspace.RenameCanLoseData` | redis_command/command/command_handler_table.cpp:3181-3347 | two names for which the two-shard branch loses data that the one-shard branch keeps |
| `ShardOps.AddFields` | redis_command/command/command_handler_table.cpp:1146-1187 | the HSET loop assigns every pair, later ones winning, and counts the new fields |
| `ShardOps.DropFields` | redis_command/command/command_handler_table.cpp:1246-1274 | the HDEL loop removes exactly the named fields and counts them |
| `ShardOps.AddMembers` | redis_command/command/command_handler_table.cpp:1950-1977 | the SADD loop adds exactly the members and counts the new ones |
| `ShardOps.DropMembers` | redis_command/command/command_handler_table.cpp:2004-2031 | the SREM loop removes exactly the members and counts them |
| `ShardOps.AddEntries` | redis_command/command/command_handler_table.cpp:2421-2473 | the ZADD loop updates both structures together, up to the first bad score |
| `ShardOps.DropEntries` | redis_command/command/command_handler_table.cpp:2542-2585 | the ZREM loop leaves the filtered index and score map and counts what went |
| `ShardOps.DropRange` | redis_command/command/command_handler_table.cpp:2823-2883 | the range loop removes exactly the members whose score is in range from both structures |
| `ShardOps.Set` | redis_command/command/command_handler_table.cpp:493-552 | SET changes the string of its name only, with the expiry EX or PX asks for |
| `ShardOps.HSet` | redis_command/command/command_handler_table.cpp:1146-1187 | HSET changes the hash of its name only |
| `ShardOps.HDel` | redis_command/command/command_handler_table.cpp:1246-1274 | HDEL changes the hash of its name only; an emptied hash disappears; the reply is the number of fields removed |
| `ShardOps.RPush` | redis_command/command/command_handler_table.cpp:1487-1517 | RPUSH appends in order and replies with the new length |
| `ShardOps.SAdd` | redis_command/command/command_handler_table.cpp:1950-1977 | SADD changes the set of its name only |
| `ShardOps.SRem` | redis_command/command/command_handler_table.cpp:2004-2031 | SREM changes the set of its name only; an emptied set disappears |
| `ShardOps.ZAdd` | redis_command/command/command_handler_table.cpp:2421-2473 | ZADD keeps index and score map in agreement |
| `ShardOps.ZRem` | redis_command/command/command_handler_table.cpp:2542-2585 | ZREM keeps them in agreement; an emptied sorted set disappears |
| `ShardOps.ZIncrBy` | redis_command/command/command_handler_table.cpp:2644-2732 | ZINCRBY and ZINCRBYFLOAT move one member's score in both structures |
| `ShardOps.ZRemRangeByScore` | redis_command/command/command_handler_table.cpp:2823-2883 | the members in range leave both structures |
| `ShardOps.MoveIn` | redis_command/command/command_handler_table.cpp:3278-3341 | moving one type of data between names, by assignment or by emplace as the branch has it; undefined exactly when the reference to the value has gone stale |
| `Server.ApplyAllConcat` | redis_command/command/command_handler_table.cpp:8-109 | running two command lists one after the other is running their concatenation |
| `Server.OnShard` | redis_command/command/command_handler_table.cpp:8-109 | a single-name command on the shard does what it promises for the name's data, and touches no other name |
| `Server.ServerData.constructor` | redis_command/server_data.h:53-102 | a new server holds nothing under any name |
| `Server.ServerData.HandleOne` | redis_command/command/command_handler_table.cpp:493-2883 | a single-name command changes the flat view of the selected database as promised and nothing else |
| `Server.ServerData.HandleDel` | redis_command/command/command_handler_table.cpp:745-772 | DEL removes exactly the strings of the names given and counts them |
| `Server.ServerData.HandleSMove` | redis_command/command/command_handler_table.cpp:2355-2418 | SMOVE is undefined exactly when the names share a shard, the source set exists, the target set does not, and the table grows; otherwise it changes the flat view as promised |
| `Server.ServerData.HandleRename` | redis_command/command/command_handler_table.cpp:3181-3520 | RENAME and RENAMENX are undefined exactly when the reference to a moved value other than a hash goes stale; otherwise they do to the flat view what their slot functions say, in both branches |
| `Server.ServerData.HandleFlushDb` | redis_command/command/command_handler_table.cpp:2886-2938 | the selected database becomes empty, the others stay |
| `Server.ServerData.Execute` | redis_command/command/command_handler_table.cpp:2355-3520 | dispatch of one command refines the flat machine, database selection included, with the reply that belongs to it, or is undefined exactly when that says so |
| `Server.ServerData.Run` | redis_command/command/command_handler_table.cpp:8-109 | so does every run of commands |
| `Server.DefinedRunApplies` | redis_command/command/command_handler_table.cpp:8-109 | a run that uses no stale reference does what the flat machine does |
| `Server.RunUndefinedIff` | redis_command/command/command_handler_table.cpp:2355-3520 | a run is undefined exactly when some command, in the state the ones before it lead to, uses a stale reference |
| `Effects.SetStores` | redis_command/command/command_handler_table.cpp:493-552 | SET replaces the string of its name and nothing else, with an expiry in seconds for EX and in milliseconds for PX; an expiry that is unreadable or negative changes nothing |
| `Effects.DelErases` | redis_command/command/command_handler_table.cpp:745-772 | DEL takes the strings of the names given and leaves their other types and all other names |
| `Effects.HSetAssigns` | redis_command/command/command_handler_table.cpp:1146-1187 | after HSET the last value given for a field is its value; other fields, types and names stay |
| `Effects.HDelRemoves` | redis_command/command/command_handler_table.cpp:1246-1273 | HDEL removes exactly the fields named; a hash left empty is gone |
| `Effects.RPushAppends` | redis_command/command/command_handler_table.cpp:1487-1520 | RPUSH appends the values in order |
| `Effects.SAddAdds` | redis_command/command/command_handler_table.cpp:1950-1976 | SADD adds exactly the members named |
| `Effects.SRemRemoves` | redis_command/command/command_handler_table.cpp:2004-2030 | SREM removes exactly the members named; a set left empty is gone |
| `Effects.ZAddScores` | redis_command/command/command_handler_table.cpp:2421-2473 | after ZADD the last score given to a member before the first unreadable one is its score; other members stay, and the index follows |
| `Effects.ZRemRemoves` | redis_command/command/command_handler_table.cpp:2542-2585 | ZREM removes exactly the members named; a sorted set left empty is gone |
| `Effects.ZRangeRemoves` | redis_command/command/command_handler_table.cpp:2823-2883 | ZREMRANGEBYSCORE removes exactly the members with scores between the bounds, both included; with the bounds the wrong way round nothing |
| `Effects.ZIncrAdds` | redis_command/command/command_handler_table.cpp:2643-2733 | a member that is there gets its old score plus the increment; other members, types, names and databases stay; for a member that is not there nothing changes |
| `Effects.SMoveMoves` | redis_command/command/command_handler_table.cpp:2355-2418 | SMOVE of a member that is there: it is in the target set and no longer in the source set, every other membership is what it was, and the source set is gone exactly when it held nothing else |
| `Effects.SMoveNothing` | redis_command/command/command_handler_table.cpp:2355-2418 | SMOVE of a member that is not there changes no membership; a missing target set is created empty if there is a source set |
| `Effects.RenameMoves` | redis_command/command/command_handler_table.cpp:3181-3347 | RENAME moves what the first type of the old name holds over what the first type of the new name held; other types stay; a sorted set that meets another one across shards is lost |
| `Effects.RenameNxMoves` | redis_command/command/command_handler_table.cpp:3349-3520 | RENAMENX does so if the new name holds nothing |
| `Effects.RenameNothing` | redis_command/command/command_handler_table.cpp:3181-3520 | equal names, a missing old name and for RENAMENX a new name that holds anything: nothing changes |
| `Effects.StaleIff` | redis_command/command/command_handler_table.cpp:2355-3520 | exactly when SMOVE, RENAME or RENAMENX uses a stale reference: same shard, the insertion grows the table, and the new name holds nothing of the type moved, which is no hash |
| `Effects.FlushEmpties` | redis_command/command/command_handler_table.cpp:2886-2950 | FLUSHDB CONFIRM empties the selected database and no other; without the word nothing happens |
| `Effects.SelectSelects` | redis_command/command/command_handler_table.cpp:158-182 | SELECT selects a database from 0 to 15 and nothing else |
| `Effects.WrongArguments` | redis_command/command/command_handler_table.cpp:493-2883 | too few arguments, or an odd number of pairs, and nothing changes |
| `Effects.HSetReply` | redis_command/command/command_handler_table.cpp:1146-1187 | HSET replies how many of the fields named were not there |
| `Effects.HDelReply` | redis_command/command/command_handler_table.cpp:1246-1273 | HDEL replies how many of the fields named were there |
| `Effects.RPushReply` | redis_command/command/command_handler_table.cpp:1487-1520 | RPUSH replies the new length |
| `Effects.SAddReply` | redis_command/command/command_handler_table.cpp:1950-1976 | SADD replies how many of the members named were not there |
| `Effects.SRemReply` | redis_command/command/command_handler_table.cpp:2004-2030 | SREM replies how many of the members named were there |
| `Effects.ZAddReply` | redis_command/command/command_handler_table.cpp:2421-2473 | ZADD replies how many of the members named were not there, and an error exactly if some score is unreadable |
| `Effects.ZRemReply` | redis_command/command/command_handler_table.cpp:2542-2585 | ZREM replies how many of the members named were there |
| `Effects.RangeReply` | redis_command/command/command_handler_table.cpp:2823-2883 | ZREMRANGEBYSCORE replies how many members had a score in the range, and -1 without a sorted set |
| `Effects.IncrementReply` | redis_command/command/command_handler_table.cpp:2643-2733 | ZINCRBY and ZINCRBYFLOAT reply the new score, and nothing for a member that is not there |
| `Effects.SetReply` | redis_command/command/command_handler_table.cpp:493-552 | SET replies OK exactly if the expiry asked for is readable and not negative |
| `Effects.MovingReplies` | redis_command/command/command_handler_table.cpp:2355-3520 | SMOVE and RENAMENX reply 1 exactly if they move or the names are equal; RENAME and RENAMENX reply an error for a missing old name |
| `Effects.DelReply` | redis_command/command/command_handler_table.cpp:745-772 | DEL replies how many of the names held a string |
| `FlatMachine.SlotEffectOk` | redis_command/command/command_handler_table.cpp:2421-2883 | every single-name command keeps index and score map in agreement |
| `FlatMachine.PairEffectOk` | redis_command/command/command_handler_table.cpp:2355-2418 | so does every two-name command, on both names |
| `FlatMachine.IndexAgreesInEveryRun` | redis_command/command/command_handler_table.cpp:2421-2883 | in every reachable state of every database the sorted-set index holds exactly the entries of the score map |
| `FlatMachine.ApplyHashIff` | redis_command/server_data.h:267-285 | one command that meets no sorted-set clash does the same under two placements of names exactly when under both, or under neither, it uses a stale reference |
| `FlatMachine.RunHash` | redis_command/server_data.h:267-285 | a run without such a clash that is defined under two placements ends the same under both, and it is defined whatever grows where every pair of names it moves between is kept apart |
| `FlatMachine.ClashShowsShards` | redis_command/command/command_handler_table.cpp:3181-3347 | a single clash is enough to tell two placements apart |
| `FlatMachine.NextViewTexts` | redis_command/command/command_handler_table.cpp:8-109 | if all texts held and all arguments have a property, so have all texts held after the command |
| `FlatMachine.RunTexts` | redis_command/command/command_handler_table.cpp:8-109 | and after any run |
| `Snapshot.HeadIsFormat` | redis_command/server_data.cpp:276-380 | the literal command heads generateRDB writes are what the encoder writes for that name and argument count |
| `Snapshot.ZAddOnto` | redis_command/server_data.cpp:365-376 | one replayed ZADD extends the rebuilt index and score map together |
| `Snapshot.EmitHash` | redis_command/server_data.cpp:328-339 | the commands for a hash, in any field order, rebuild it |
| `Snapshot.EmitList` | redis_command/server_data.cpp:341-351 | the commands for a list rebuild it in order |
| `Snapshot.EmitMembers` | redis_command/server_data.cpp:353-363 | the commands for a set, in any order, rebuild it |
| `Snapshot.EmitScores` | redis_command/server_data.cpp:365-376 | the commands for a sorted set, in any member order, rebuild its score map and the very same index |
| `Snapshot.EmitStrings` | redis_command/server_data.cpp:306-326 | the commands for strings rebuild the values; the separate EX commands change nothing |
| `Snapshot.EmitString` | redis_command/server_data.cpp:306-326 | one string's SET rebuilds its value, and an EX command with the seconds left follows if any are left |
| `Snapshot.EmitShard` | redis_command/server_data.cpp:302-376 | the commands of a shard rebuild every name in it and touch no other |
| `Snapshot.EmitDb` | redis_command/server_data.cpp:276-380 | the commands of 128 shards rebuild the database, apart from expiries and empty containers |
| `Snapshot.AddsGrows` | redis_command/server_data.cpp:302-376 | every command of a snapshot makes the rebuilt data strictly larger if it writes any: none writes what is there already |
| `Snapshot.ImageIs` | redis_command/server_data.cpp:302-376 | what a replica gets of a slot: strings without expiry, and containers that hold anything |
| `Replication.HasData` | redis_command/server_data.cpp:281-295 | no data is reported only when every container the code looks at is empty |
| `Replication.EmitSelected` | redis_command/server_data.cpp:276-380 | SELECT and a database's commands change that database and no other |
| `Replication.GenerateRdb` | redis_command/server_data.cpp:276-380 | the whole stream, the closing EOF included, run on an empty server rebuilds every database |
| `Replication.LoadRdb` | redis_command/modules/replication.cpp:488-531 | the loader runs exactly the commands decoded from the bytes its parser accepts, in whatever chunks they come; how many chunks that is, is decided by the limit; it is undefined exactly when that run is |
| `Replication.ReplayedClean` | redis_command/modules/replication.cpp:488-531 | whatever bytes arrive, no argument of a command that is run has a line end in it |
| `Replication.SentDefined` | redis_command/server_data.cpp:276-380 | none of the commands generateRDB writes can use a stale reference, whatever grows |
| `Replication.ReplicaMatchesIff` | redis_command/server_data.cpp:276-380 | a replica that starts empty ends with the master's data exactly when no text in that data contains a line end |
| `Replication.AllNeeded` | redis_command/server_data.cpp:276-380 | stopped after any number of commands, a snapshot's run has rebuilt the data exactly when the last command that writes data is among them |
| `Replication.PartMatchesIff` | redis_command/modules/replication.cpp:488-531 | a replica that starts empty and gets any first part of the stream ends with the master's data exactly when no text in it contains a line end and that part reaches the end of the last command that writes data |
| `Transfer.Strip` | redis_command/modules/replication.cpp:466-471 | all replies in front of a piece are taken off |
| `Transfer.RecvRdbData` | redis_command/modules/replication.cpp:428-486 | the pieces without the replies in front of them, up to the first one with "EOF" in it |
| `Transfer.ItemsReplayed` | redis_command/modules/replication.cpp:488-531 | a stream of commands with replies among them, broken off anywhere: exactly the complete commands are run |
| `Transfer.ArrivalDecides` | redis_command/modules/replication.cpp:488-531 | what arrives decides: the master's data is there only if no text in it has a line end, and if a first part of the commands arrives, with replies among them, exactly if moreover the last command that writes data is complete |
| `Transfer.Replicate` | redis_command/modules/replication.cpp:428-531 | the same of the whole way from the master's keyspace over any network and the replica's limit to the replica's keyspace |
| `Transfer.ArrivesInOrder` | redis_command/modules/replication.cpp:428-486 | when no piece begins like a reply, a first part of the stream arrives |
| `Transfer.RepliesInFront` | redis_command/modules/replication.cpp:466-471 | replies in front of the first piece make no difference to what arrives |
| `Transfer.RepliesAlone` | redis_command/modules/replication.cpp:466-471 | nor do replies in a piece of their own |
| `Transfer.EofCutsShortIff` | redis_command/modules/replication.cpp:473-480 | some way of receiving the stream in pieces of at most 8191 bytes ends the transfer before all data has come exactly when an argument of a command up to the last one that writes data has "EOF" in it |
| `Transfer.EofInData` | redis_command/modules/replication.cpp:473-480 | that is so whenever a name, field, value or member of the data has "EOF" in it |
| `Transfer.AllAccepted` | redis_command/modules/replication.cpp:496-505 | with 65536 + 8191 bytes of room above the longest command, all that the transfer brings is accepted |
| `Transfer.TooLongNeverArrives` | redis_command/modules/replication.cpp:496-505 | a command longer than the limit never arrives, however the stream is cut |
| `Transfer.EveryCutMatches` | redis_command/modules/replication.cpp:428-531 | clean data, no "EOF", no argument with "+OK" at its end, and commands that leave that room: every way of receiving the stream gives the master's data |
| `Transfer.LookalikeNeedsOk` | redis_command/modules/replication.cpp:466-471 | a piece of a clean stream begins like a reply only where an argument ends in "+OK" |
| `Transfer.LookalikeLost` | redis_command/modules/replication.cpp:466-471 | when "+OK" and the line end behind it are taken off the end of a command, that command and all after it are never read |
| `Transfer.ReplyLookalike` | redis_command/modules/replication.cpp:466-471 | for a command that writes or comes before one that does and whose last argument ends in "+OK", some way of receiving the stream keeps the replica from its master's data |
| `Scan.ScanContainer` | redis_command/server_data.cpp:469-499 | one container from an offset: the matching names in order until it ends or the batch is full, and where it stopped |
| `Scan.ScanShard` | redis_command/server_data.cpp:530-628 | the five containers of a shard in turn, from any type and offset |
| `Scan.ScanKeys` | redis_command/server_data.cpp:501-628 | one call delivers the next part of what the cursor has still to visit; unfinished calls deliver exactly the clamped count and the cursor moves forward in the order of shard, type, offset |
| `Scan.ScanAll` | redis_command/server_data.cpp:501-628 | calls with any counts until the end deliver exactly the matching names of all shards and types in order |
| `Scan.TotalKeys` | redis_command/server_data.cpp:630-649 | getTotalKeys is the number of entries of the database |
| `Scan.ScanAllTotal` | redis_command/server_data.cpp:438-649 | a scan with pattern "*" delivers exactly that many names |
| `Scan.OwnNameFound` | redis_command/server_data.cpp:438-457 | every name held is found under the pattern that is the name itself, whatever the regular-expression engine says |
| `Scan.MatchesIff` | redis_command/server_data.cpp:438-457 | a name matches exactly by "*", by being the pattern, by the regular expression, or without one by containing the pattern |
| `Scan.EntriesOnce` | redis_command/server_data.cpp:501-628 | the entries scanned are every type and name the shards hold, each once |
| `Scan.CursorRoundTrip` | src/util/scan_cursor.h:42-86 | a cursor sent to the client and back is the same cursor |
| `Scan.ReadsAsIff` | src/util/scan_cursor.h:52-86 | a text is read as a cursor exactly when it is three numbers with colons between them |
| `Scan.SentStarts` | redis_command/command/command_handler_table.cpp:1064-1075 | the text of a cursor, sent by any client on any connection, starts there, whatever the connection remembers |
| `Scan.ScanZeroRestartsIff` | redis_command/command/command_handler_table.cpp:1046-1058 | one SCAN 0 starts over exactly when the connection remembers no unfinished scan that moved |
| `Scan.HandleScan` | redis_command/command/command_handler_table.cpp:1030-1143 | one SCAN starts where the argument says, and with an argument that is no cursor where the connection stands; it replies with part of what is left, as many names as COUNT asks for between 1 and 1000, and with 0 exactly when nothing is left; it is undefined exactly when the shard index sent, or else the one remembered, is negative |
| `Scan.Resumes` | redis_command/command/command_handler_table.cpp:1046-1075 | sent back, the cursor of a scan under way is where the next call starts |
| `Scan.Conversation` | redis_command/command/command_handler_table.cpp:1030-1143 | a client that sends back each cursor until it gets 0 sees every matching name once, with any counts |
| `Scan.Session` | redis_command/command/command_handler_table.cpp:1030-1143 | any calls on one connection, a database each: every call gives a front part of what matches from where it starts; a cursor that the client sends is where it starts, whatever came before; any other argument starts over exactly at the first call or after a reply of 0, and otherwise where the last reply stopped |
| `Delimited.CutOfGlueIff` | redis_command/server_data.cpp:114-124 | splitting a line undoes the join exactly when no field contains the separator |
| `Delimited.GlueOfCut` | redis_command/server_data.cpp:114-124 | joining undoes the split for every line |
| `Delimited.Split` | redis_command/server_data.cpp:114-124 | the find-and-erase loop cuts the line at every separator |
| `Delimited.LinesOfTextIff` | redis_command/server_data.cpp:111-113 | reading lines gives back the lines written exactly when none contains a line end |
| `DumpFile.LoadConcat` | redis_command/server_data.cpp:111-213 | loading goes on after a first part exactly as from where that part left it, and not at all after it stopped |
| `DumpFile.LineEnds` | redis_command/server_data.cpp:111-223 | one line leads out of a table exactly if it has no number or type or names no database, and stops the loading exactly if its number, expiry or score is unreadable |
| `DumpFile.LineLoads` | redis_command/server_data.cpp:145-193 | one line sets the string of its name, or adds one field, element or member to it, and changes nothing else |
| `DumpFile.ScoreLoads` | redis_command/server_data.cpp:195-211 | a sorted-set line sets one score and adds one index entry, without taking an older one out |
| `DumpFile.RecordsOfText` | redis_command/server_data.cpp:25-124 | plain records are read back from the text of the file |
| `DumpFile.RecordsPlain` | redis_command/server_data.cpp:111-124 | whatever the file holds, no field read from it contains a separator or a line end |
| `DumpFile.SaveString` | redis_command/server_data.cpp:43-53 | a string's line restores its value; an expiry is written only when it has passed |
| `DumpFile.SaveHash` | redis_command/server_data.cpp:55-61 | a hash's lines, in any order, restore it |
| `DumpFile.SaveList` | redis_command/server_data.cpp:63-69 | a list's lines restore it in order |
| `DumpFile.SaveMembers` | redis_command/server_data.cpp:71-77 | a set's lines, in any order, restore it |
| `DumpFile.SaveScores` | redis_command/server_data.cpp:79-85 | a sorted set's lines, in any order, restore score map and index |
| `DumpFile.SaveShard` | redis_command/server_data.cpp:39-86 | the five loops restore every name of the shard and touch no other |
| `DumpFile.SaveDb` | redis_command/server_data.cpp:37-87 | the lines of 128 shards restore the database |
| `DumpFile.SaveToFile` | redis_command/server_data.cpp:25-95 | the text written is that of records which, loaded into an empty server, restore every database |
| `DumpFile.LoadOnShard` | redis_command/server_data.cpp:145-211 | one line changes one name of one shard, by its type |
| `DumpFile.LoadOne` | redis_command/server_data.cpp:126-211 | one line on all databases, with the ways in which loading stops |
| `DumpFile.LoadFromFile` | redis_command/server_data.cpp:97-223 | the loader does to the flat view what its lines say, for every file and every start, and keeps every name in its shard |
| `DumpFile.LoadTexts` | redis_command/server_data.cpp:97-223 | loading brings in plain texts only |
| `DumpFile.LoadedIsPlain` | redis_command/server_data.cpp:97-223 | whatever the file, an empty server that loads it holds no text with a separator or a line end |
| `DumpFile.LoadOfSaveIff` | redis_command/server_data.cpp:25-224 | a dump loaded into an empty server gives the data back, apart from live expiries and empty containers, exactly when no text in it has the separator or a line end |
| `DumpFile.RestoredIs` | redis_command/server_data.cpp:25-95 | what comes back of a slot: strings with an expiry that has passed, and containers that hold anything |
| `DumpFile.ZSetLineIff` | redis_command/server_data.cpp:195-211 | a sorted-set line keeps index and score map in agreement exactly when it does not change the score of a member already there |
| `DumpFile.IndexKeptIff` | redis_command/server_data.cpp:97-223 | loading a whole file into consistent data keeps every index in agreement exactly when no line that is reached changes the score of a member already there; later lines never repair it |
| `CommandTable.OrderedUnique` | redis_command/command_table.h:69-160 | two ordered arrangements of the same distinct entries are equal |
| `CommandTable.PivotInside` | redis_command/command_table.h:91-132 | with distinct hashes the pivot of three or more entries lands strictly inside, so both sides are non-empty and smaller |
| `CommandTable.LowPartEmptyIff` | redis_command/command_table.h:115-151 | with distinct hashes nothing lies left of the pivot exactly for an ordered pair |
| `CommandTable.WrapsSmall` | redis_command/command_table.h:134-151 | how the wrap depends on the table: never for three entries, for a pair exactly when it is in order, else as for the entries left of the pivot |
| `CommandTable.CommandTableBuilder.Add` | redis_command/command_table.h:62-66 | an entry is appended |
| `CommandTable.CommandTableBuilder.Sift` | redis_command/command_table.h:71-81 | one turn of the insertion sort: one more entry in order, the rest untouched |
| `CommandTable.CommandTableBuilder.Sort` | redis_command/command_table.h:69-82 | the insertion sort leaves an ordered permutation |
| `CommandTable.CommandTableBuilder.ChoosePivot` | redis_command/command_table.h:91-113 | the branches pick the position of the median of three |
| `CommandTable.CommandTableBuilder.Sweep` | redis_command/command_table.h:121-129 | the partition scan brings the smaller entries to the front in their order, the others behind, and loses none |
| `CommandTable.CommandTableBuilder.Partition` | redis_command/command_table.h:115-132 | smaller entries, pivot, others; a permutation of the range; the rest of the table untouched |
| `CommandTable.CommandTableBuilder.Process` | redis_command/command_table.h:134-151 | the range becomes an ordered permutation, unless it starts the table and its bound wraps, which is decided by the entries alone |
| `CommandTable.CommandTableBuilder.Build` | redis_command/command_table.h:153-171 | the built table is an ordered permutation exactly unless the bound wraps |
| `CommandTable.LowerBound` | redis_command/command_table.h:184-201 | everything before the result is smaller, everything from it on is not |
| `CommandTable.FindLowerBound` | redis_command/command_table.h:204-216 | the lookup is a linear scan for the hash, the error case included |
| `CommandTable.LookupIgnoresOrder` | redis_command/command_table.h:204-216 | with distinct hashes, sorting does not change what a lookup finds |
| `CommandTable.BuiltTable` | redis_command/command_table.h:69-216 | the quicksort's table is the insertion sort's, and a lookup in it is a linear scan of the entries as inserted |
| `Crawler.ConservedStep` | example/spider/crawler.cpp:47-92 | no step loses or doubles a URL between being seen, queued, popped |
| `Crawler.CountersStep` | example/spider/url_queue.h:26-79 | size, inflight, total and unique count what they claim after every step |
| `Crawler.AttendedStep` | example/spider/url_queue.h:36-40 | while anything is queued, some worker has not returned |
| `Crawler.AllDone` | example/spider/crawler.cpp:22-92 | once all workers have returned: the queue is empty, every URL seen was popped exactly once within the depth limit, and total and unique are right |
| `Crawler.TracedStep` | example/spider/crawler.cpp:47-92 | after every step each link of a fetched page within depth is seen or still among its worker's links, and nothing else is seen or queued |
| `Crawler.AllFound` | example/spider/crawler.cpp:22-92 | once all workers have returned, the URLs seen are exactly the seeds and all links of all pages fetched at less than the greatest depth, and each was crawled as a seed or one deeper than a page it is on |
| `Crawler.AllCounted` | example/spider/crawler.cpp:73-87 | every such link has been counted once, as unique or as duplicate |
| `Crawler.PoppedInOrder` | example/spider/url_queue.h:52-79 | pages are popped in the order in which they were queued |
| `Crawler.NotStuck` | example/spider/crawler.cpp:47-92 | a worker that has not returned has a step to take |
| `Crawler.WorkToComeIff` | example/spider/crawler.cpp:47-92 | in every reachable state some continuation counts another page exactly when a page is queued or some worker has a page to count or a link to push |
| `Crawler.LeavesEarlyIff` | example/spider/url_queue.h:36-40 | a worker leaves while work is still to come exactly when the queue is empty, nobody is fetching, and some worker has a page to count or a link to push |
| `Crawler.EarlyLeaver` | example/spider/url_queue.h:36-40 | a run in which that happens |
| `ConnPool.TotalGet` | src/http/httpconnection.cpp:395-489 | the steps of getConnnection keep the counter right |
| `ConnPool.TotalRelease` | src/http/httpconnection.cpp:655-678 | the steps of ReleasePtr keep the counter right |
| `ConnPool.InvalidWithinTotal` | src/http/httpconnection.cpp:428-433 | more invalid connections than the total never occur |
| `ConnPool.PoolStep` | src/http/httpconnection.cpp:395-427 | the pool lists each pooled connection once and respects its limit |
| `ConnPool.StepFrame` | src/http/httpconnection.cpp:395-489 | a connection in another caller's hands is left alone |
| `ConnPool.Accounting` | src/http/httpconnection.cpp:395-492 | in every interleaving: total is pooled plus in use plus removed but not yet subtracted; the pool is within its limit; pooled connections are idle and in nobody's hands; each is given out at most max(1, maxRequest) times; the error branch is not taken |
| `ConnPool.FirstUsable` | src/http/httpconnection.cpp:395-427 | whatever other callers do meanwhile, a caller gets the first pooled connection found usable and takes those before it off the pool; if none is usable it takes all off and has to connect |
| `ConnPool.Obtained` | src/http/httpconnection.cpp:428-489 | a caller that has found a connection borrows it, one that has not borrows a new one if it can connect, and what it has taken off is no longer counted |
| `ConnPool.Returned` | src/http/httpconnection.cpp:655-678 | a connection that comes back goes to the end of the pool exactly if it is still good, has not served maxRequest requests and there is room, and is otherwise deleted and no longer counted |
| `WaitGroup.PlacesStep` | src/core/wait_group.h:37-105 | every ticket that is neither spent nor refused is kept at exactly one place, once, after every step |
| `WaitGroup.AwaitedStep` | src/core/wait_group.h:49-97 | whoever is queued or about to be will be found by a Done |
| `WaitGroup.NoLostWakeUp` | src/core/wait_group.h:37-105 | at zero with no Done between decrement and swap nobody is queued; no ticket is resumed twice |
| `WaitGroup.AllResumedIff` | src/core/wait_group.h:37-105 | once everything has come to rest at zero, a ticket was resumed exactly once if and only if a stopping scheduler did not refuse its callback |
| `WaitGroup.RefusedForEver` | src/core/scheduler.cpp:121-187 | a refused waiter is never resumed |
| `WaitGroup.StoppingRefuses` | src/core/wait_group.h:49-71 | from every reachable state with the scheduler stopping, one Done left, the lock free and an idle thread, a run refuses the first waiter |
| `WaitGroup.RefusedRun` | src/core/wait_group.h:49-71 | such a state is reached |
| `WaitGroup.FreeWaits` | src/core/wait_group.h:73-82 | waits that find the counter at zero make no ticket and do not suspend |
| `WaitGroup.BlockedForEver` | src/core/wait_group.h:83-97 | a coroutine resumed while await_suspend holds the lock, whose own Done is the last, waits for that lock for ever |
| `WaitGroup.Settles` | src/core/wait_group.h:37-105 | from every reachable state in which no thread is blocked, all threads can come to rest |
| `WaitGroup.InlineBlocks` | src/core/wait_group.h:83-97 | from every reachable state with a coroutine running inside await_suspend, a run in which its own Done is the last of a round blocks its thread |
| `WaitGroup.CanBlockIff` | src/core/wait_group.h:49-97 | from a reachable state some continuation blocks a thread on its own lock exactly when it is inside the call that resumes it, or nobody is blocked yet and there is another thread, or the counter reached zero while it was on its way into the queue |
| `WaitGroup.BlockedRun` | src/core/wait_group.h:49-97 | such a run from the start, with two threads and one Done to come |
| `WaitGroup.ResumedAfterZero` | src/core/wait_group.h:37-105 | over any number of rounds, as long as no round begins while a Done of the last one is still to swap, nobody is resumed whose wait did not see the counter at zero |
| `WaitGroup.ReuseWakesEarly` | src/core/wait_group.h:49-71 | from every reachable state at zero with a Done still to swap, the lock free and an idle thread, a run that begins a new round resumes a waiter that never saw zero |
| `WaitGroup.WakesNextRound` | src/core/wait_group.h:49-71 | such a run from the start |
| `Scheduler.TakeKeeps` | src/core/scheduler.cpp:203-232 | taking from the own deque, the global deque or another worker's end moves one callback and no other |
| `Scheduler.DrainKeeps` | src/core/scheduler.cpp:300-327 | draining a local deque into the global one loses and doubles nothing |
| `Scheduler.SubmitAdds` | src/core/scheduler.cpp:121-187 | an accepted callback is at one place; nothing is accepted while stopping |
| `Scheduler.CountersStep` | src/core/scheduler.cpp:121-411 | each pending counter is its deque's length and running the number of callbacks being executed |
| `Scheduler.EachExactlyOnce` | src/core/scheduler.cpp:121-411 | in every interleaving each accepted callback is at exactly one place, none is executed twice, none was never accepted |
| `Scheduler.AllExecuted` | src/core/scheduler.cpp:340-358 | when nothing is queued, drained or in hand, everything accepted has been executed |
| `Scheduler.TakesNext` | src/core/scheduler.cpp:189-295 | a worker that ends a callback and is not disturbed takes the front of its own deque, else the front of the global one, else the back of another worker's |
| `Scheduler.OldestFirst` | src/core/scheduler.cpp:203-411 | in every reachable state a worker takes the oldest callback of its own deque and a thief the newest |
| `Scheduler.SharedInOrder` | src/core/scheduler.cpp:216-226 | the global deque is served in the order in which it was filled |
| `Scheduler.ThreeAttempts` | src/core/scheduler.cpp:377-411 | a thief gives up after three attempts |
| `Scheduler.CanBeExecuted` | src/core/scheduler.cpp:189-295 | from every reachable state in which the scheduler is not stopping each accepted callback has been executed or comes to be in some continuation |
| `Scheduler.AcceptedBeforeStop` | src/core/scheduler.cpp:119-187 | nothing is accepted after the stop |
| `Scheduler.CanExit` | src/core/scheduler.cpp:284-287 | once the scheduler is stopping every worker can come to its exit |
| `TaskLife.ListsStep` | src/core/scheduler.h:137-302 | each list holds exactly the tasks that belong on it, once, after every step |
| `TaskLife.Life` | src/core/scheduler.h:137-302 | a task is running until its completion callback, then finished, then destroyed at most once, and collected only with the flag down |
| `TaskLife.NotWhileFinalizing` | src/core/scheduler.h:283-302 | no frame is destroyed while its flag is up |
| `TaskLife.CallbackFindsTask` | src/core/scheduler.h:155-169 | the completion callback always finds its task alive |
| `TaskLife.WaitAll` | src/core/scheduler.cpp:340-358 | when wait_all leaves its loop, every task submitted so far has completed |
| `TaskLife.WorkingStep` | src/core/scheduler.cpp:189-295 | a worker stops being one that looks or executes only by finding nothing, and comes back only when it has not seen the stop |
| `TaskLife.DoomedForEver` | src/core/scheduler.cpp:119-187 | a doomed task stays so and is never completed |
| `TaskLife.Settles` | src/core/scheduler.cpp:189-295 | from every reachable state without a doomed task, a run in which every task returns |
| `TaskLife.CanLeaveIff` | src/core/scheduler.cpp:340-358 | from every reachable state wait_all can still come to leave, and moreover every task can return, exactly when no task is doomed: refused; or under stopping not yet submitted, waiting for a wake-up through the scheduler, or queued with no worker looking or executing |
| `TaskLife.DroppedRun` | src/core/scheduler.h:137-182 | a run in which the scheduler stops between a task's listing and its submission, so that wait_all can never leave |
| `TaskLife.WakeRefusedRun` | src/core/scheduler.cpp:119-187 | a run in which the wake-up of a suspended task is refused, with the same end |
| `TaskLife.WorkersGoneRun` | src/core/scheduler.cpp:189-295 | a run in which the last worker leaves with a task still queued, with the same end |
| `TaskLife.NoneListed` | src/core/scheduler.h:137-153 | once the scheduler is stopping and the callers past its first test have listed their tasks, no task is listed any more |
| `TaskLife.DestroyedAfterReturn` | src/core/task.h:125-143 | over all runs in which no scan takes a task between the lowering of its flag and the return of its final_suspend, no frame is destroyed before that return |
| `TaskLife.CanBeCollected` | src/core/scheduler.h:283-302 | from every reachable state each finished task whose flag is down can come to be destroyed by cleaning alone |
| `TaskLife.ReleasedCanBeDestroyed` | src/core/task.h:125-143 | from every reachable state with a finished task in that window and a thread that cleans, some run destroys its frame there |
| `TaskLife.FlagTooShort` | src/core/task.h:125-143 | such a run from the start |
| `Epoll.BitsChange` | src/core/io_manager.cpp:186-240 | changing one descriptor's mask changes the number of registered bits by the difference |
| `Epoll.ConsistentChange` | src/core/io_manager.cpp:186-832 | the operation chosen is legal for the kernel and interest list, masks and counter change together |
| `Epoll.IOManager.AddEvent` | src/core/io_manager.cpp:186-518 | registration succeeds exactly for a new event of a valid descriptor when the kernel agrees, and adds one bit |
| `Epoll.IOManager.DelEvent` | src/core/io_manager.cpp:520-577 | deletion succeeds exactly for a registered event, clears its context and takes one bit |
| `Epoll.IOManager.CancelEvent` | src/core/io_manager.cpp:579-635 | cancelling also hands the waiter to the scheduler |
| `Epoll.IOManager.CancelAll` | src/core/io_manager.cpp:637-701 | all events of a descriptor go, each with its callback, and the one each of them wakes is scheduled, the reader before the writer, and nobody else |
| `Epoll.IOManager.Dispatch` | src/core/io_manager.cpp:755-832 | exactly the ready events that are registered go, both when there is an error, and the one each of them wakes is scheduled, the reader before the writer, and nobody else; a failed epoll_ctl changes nothing |
| `Epoll.WakesRegisteredIff` | src/core/io_manager.cpp:62-121 | one registration and its trigger: the one who registered is woken exactly unless a ticket was registered over an old handle |
| `Epoll.HandleStays` | src/core/io_manager.cpp:62-121 | triggering leaves the handle in place, deletion clears it |
| `Epoll.WakesWaitingIff` | src/core/io_manager.cpp:62-121 | over any registrations, removals and triggers of a descriptor, a trigger wakes the one whose registration is waiting exactly unless that is by ticket and another waiter's handle has been registered since the event was last removed |
| `Locks.PlanOrdered` | redis_command/command/command_handler_table.cpp:2371-2387 | every command's locks are those of its names' shards and no others, taken in strictly increasing order |
| `Locks.HighestUnheld` | redis_command/command/command_handler_table.cpp:3198-3215 | the holder of a lock waits for a higher one only |
| `Locks.SomeoneSteps` | redis_command/command/command_handler_table.cpp:1795-1810 | while some thread is busy, some thread can take or give back a lock, even if waiting writers keep readers out |
| `Locks.NoDeadlock` | redis_command/command/command_handler_table.cpp:2371-2387 | any mix of these commands cannot deadlock, and conflicting locks are never held together |
| `Locks.SameLockIff` | redis_command/server_data.h:267-285 | two names are under the same lock exactly when they share database and shard |
| `Locks.HoldsPlan` | redis_command/command/command_handler_table.cpp:2371-2387 | from its beginning to its first release a command holds a front part of its locks, and all of them when it waits for none |
| `Locks.NeverTogether` | redis_command/command/command_handler_table.cpp:2371-2387 | two commands never work at once on a shard that one of them writes |
| `Locks.AllFinish` | redis_command/command/command_handler_table.cpp:2371-2387 | from every reachable state, if no new command begins, every command can come to its end |
| `Timers.BeforeTotal` | src/core/timer.cpp:29-44 | the comparator is a strict total order |
| `Timers.InsertTimer` | src/core/timer.cpp:147-175 | insertion keeps the set ordered |
| `Timers.TimerManager.AddTimer` | src/core/timer.cpp:147-175 | the new timer is due ms after now, the set stays ordered, and the front is reported right |
| `Timers.TimerManager.Cancel` | src/core/timer.cpp:68-79 | a cancelled timer has no callback and is out of the set |
| `Timers.TimerManager.Reset` | src/core/timer.cpp:81-138 | reset from now moves a waiting timer; reset from its start never moves it; one that has left the set is refused |
| `Timers.TimerManager.GetNextTime` | src/core/timer.cpp:198-224 | waiting the answer in milliseconds passes no unexpired deadline and is less than a millisecond short of the first |
| `Timers.TimerManager.Collect` | src/core/timer.cpp:226-269 | exactly the timers that are due leave the set, in order, for this caller, whatever other callers have collected and not dispatched yet |
| `Timers.TimerManager.DispatchOne` | src/core/timer.cpp:271-297 | a collected timer is scheduled at most once by all callers together, not before its time, and not if it was cancelled in the meantime |
| `Aof.CompleteStep` | redis_command/modules/AOF.cpp:59-474 | files in order, data on its way and buffer are always what the first file held and all that was accepted |
| `Aof.StagesStep` | redis_command/modules/AOF.cpp:369-474 | the size counter is the buffer's length after every step, so both assertions in the code hold |
| `Aof.DiskStep` | redis_command/modules/AOF.cpp:248-321 | after every step, rotation by the flusher or by another thread included, the last files are on disk as written, and the files found at the start stay until their index comes up |
| `Aof.NothingLost` | redis_command/modules/AOF.cpp:59-474 | whoever rotates and whenever the server stops, no byte is lost, doubled or reordered between the callers and the files |
| `Aof.FinalFlush` | redis_command/modules/AOF.cpp:369-386 | after the final flush everything accepted before it is in the files |
| `Aof.FilesKept` | redis_command/modules/AOF.cpp:78-321 | whatever files and index the server started with, the last max_file_number files since then are found under their indices, and under an index not used since what was there at the start |
| `Aof.FilesStarted` | redis_command/modules/AOF.cpp:248-321 | every rotation, by the flusher or by another thread, starts one more file, and nothing else does |
| `Aof.FullRotates` | redis_command/modules/AOF.cpp:388-474 | a flusher that is not disturbed starts the next file exactly when it has filled the one it wrote to |
| `Aof.FlusherEnds` | redis_command/modules/AOF.cpp:388-474 | the flusher can come to its end when the module or the server is stopping |
| `Aof.StopFlagEnds` | redis_command/modules/AOF.cpp:388-391 | the server's stop flag alone can end it |
| `Aof.CanStop` | redis_command/modules/AOF.cpp:369-386 | from every reachable state the server can be stopped without another command, and then all that was accepted is in the files |
| `Aof.EachFileDecodes` | redis_command/modules/AOF.cpp:78-184 | a rotation never cuts a command in two: each file decodes by itself, to the last byte, the first one if it did so at the start |

## Left out

- Sockets, TLS, the HTTP, MySQL and Redis clients, configuration, logging, HTML and gzip: I/O and foreign libraries.
- Replay of the append-only file as data: several write commands are not logged, and files are reloaded by index rather than by age.
- Commands other than SELECT, SET, DEL, HSET, HDEL, RPUSH, SADD, SREM, SMOVE, ZADD, ZREM, ZINCRBY, ZINCRBYFLOAT, ZREMRANGEBYSCORE, RENAME, RENAMENX and FLUSHDB have no effect in the model; they would add easy members of the same kind.
- The data effect of RPOPLPUSH and LPOPRPUSH, which use an element after it has been popped; only their locking is modelled.
- The lock order of SDIFF, SINTER and SUNION, which lock in argument order.
- The locks inside single handlers (HSET locks once per pair): in the keyspace a command is one step.
- Scores are integers; the text of a score is a parameter that is assumed to read back exactly where a round trip is claimed. Not-a-number and rounding are not modelled.
- std::hash, the regular-expression engine, the clock and the random tower height are parameters.
- Overflow of clock arithmetic in SET, of counters, of 32-bit spans and of timer periods near 2^64 milliseconds.
- Expired strings: expiry is stored and saved, its removal is not modelled.
- Authentication: every connection is an authenticated client and not the administrator, whose FLUSHDB needs no confirmation.
- Recurring timers, whose sort key changes inside the ordered set.
- What becomes of the bytes that come after the transfer has ended: the online phase of a replica, with a parser of its own, and reconnection. That a send on the master's side may be partial.
- That the command names of the server have distinct hashes.
- SkipList.SkipList.Add: the value stored beside a key is left out, since it is always the member; memory is a map from addresses to nodes, and a freed address is not reused.
- Resp.ParseValue: an array header that announces more elements than a vector can reserve makes the source throw; the model says that the value is incomplete.
- Server.ServerData.HandleRename: which insertion grows a table is left to the environment, one choice for each command.
- DumpFile.LoadFromFile: a line with too few fields or a database number out of range reads outside a vector in the source; the model reports it as undefined and says nothing about what follows.
- DumpFile.SaveToFile: the clock is read once for the whole dump.
- Replication.GenerateRdb: the data does not change while the stream is produced.
- Crawler.AllDone: fetching is any step that returns some links; the rate limiter and the files written are left out.
- ConnPool.Accounting: whether a connection is alive and young enough is decided by the environment each time the code asks.
- WaitGroup.NoLostWakeUp: Done is not called more often than Add allows; the destructor is left out, and so is a coroutine that waits again on the same group while it is resumed inside await_suspend, which blocks like one whose Done is the last.
- Scheduler.EachExactlyOnce: that workers may exit with work still queued is part of the model; nothing is claimed about it.
- TaskLife.WaitAll: of what wait_all looks at, the lock and the list of running tasks are in the model; its counters make it wait longer, and are all zero once every task has returned, which is what `CanLeaveIff` reaches. Callbacks that resume no top-level task, and restarting a stopped scheduler, are left out.
- Transfer.ReplyLookalike: shown for the last argument of a command; what a replica makes of "+OK" taken off the end of an earlier argument is not characterised.
- Epoll.IOManager.AddEvent: no descriptor is closed while registered; a moved-from callback is empty.
- Timers.TimerManager.AddTimer: the address of a destroyed timer is not reused.
- Aof.NothingLost: no file operation fails and nobody closes the file from outside; a command that arrives while a rotation has the file closed is not accepted.
