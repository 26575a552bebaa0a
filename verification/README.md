# A verified model of the chat system

The chat system is a C++ server with an SQLite store and a Python client. Its value lies in its protocols and small
data structures: writers that share one database transaction, messages that survive crashes, a JSON printer and
parser, framed byte streams, a word filter, rate limits, history pages and password proofs. This project models them
in Dafny 4.11 and proves what the code promises, for every input, every interleaving and every run of the model.
`dafny verify dfyconfig.toml` checks everything.

## How it is laid out

| files | part of the system |
|---|---|
| `GroupCommit`, `GroupCommitProofs`, `GroupCommitRuns` | group commit of `src/database.cpp`: the class `Database`, all writers as one machine, its invariant, whole runs |
| `Delivery`, `DeliveryCode` | the pending queue and resending of `legacy/chat_client_v3.py`, the tables and `doMessage` of `legacy/chat_server_v4.cpp` |
| `DeliveryMachine`, `DeliveryInvariant`, `DeliverySteps`, `DeliveryServer`, `DeliveryRuns`, `DeliveryProgress`, `DeliveryForward`, `DeliveryDisplay`, `DeliverySettle`, `DeliveryWitness` | clients, connections and server threads as one machine, its invariant, whole runs, what can still happen from any state, whom a lookup reaches, when a message can still reach the screen, what can be cleared away, two runs that mark the limit of the guarantee |
| `Json`, `JsonCode`, `JsonRoundTrip`, `JsonUtf8`, `JsonGrammar` | `include/chat/minijson.h`: printer and suffix parser, the index-threading code, round trips, UTF-8 (RFC 3629 sections 3 and 4), and the accepted texts with their meaning, written down without the parser |
| `ByteOrder`, `Frame`, `SendQueue` | frames of `src/frame.cpp` and the bounded send queue of `src/server.cpp`, end to end |
| `Reactor`, `ReactorOrder`, `ReactorOut`, `ReactorWire` | I/O thread and workers of `legacy/chat_server_v3.cpp`, the output of one connection, and both together up to the peers' readers |
| `WordSpec`, `WordFilter` | the word filter of `src/word_filter.cpp`: what it promises, and the trie |
| `TokenBucket`, `KeyedLimiter` | `src/rate_limiter.cpp` over exact numbers |
| `Paging` | cursors of `src/protocol.cpp`, pages of `src/server.cpp` and `src/database.cpp` |
| `Hash`, `Kdf` | the loops of `include/chat/pwd_hash.h` around the compression function |
| `Auth`, `AuthCode`, `Tokens`, `AuthRuns`, `AuthLockout` | challenges, proofs, the pepper, registration and login of `src/server.cpp`, the code behind them, the token book, all connections together, and when an account can be logged in to |
| `Bytes`, `Collections` | bytes, decimal text, optional values, numbers in order |

Every C++ or Python object that updates its fields is a class here, with the same branches. Each of its methods is
tied to a function on values (`Entered`, `Drain`, `Called`, `Consume`, `Accept`, `Parse`, ...), and the properties
are proved about that function and about machines that take its steps in any order. What the code gets from outside
is a parameter of a step: results of SQLite calls and of `send`, clock readings, random bytes, thread scheduling,
disconnects, restarts and kills.

## Where code and comments differ

The model follows the code.

- `acceptMessage` returns success whatever COMMIT says, although an ACK is documented to mean persisted
  (legacy/chat_server_v4.cpp:568-569, legacy/chat_server_v4.cpp:1020-1021). `DeliveryWitness.UnnoticedCommitFailureLoses`
  is a run in which a message is lost that way; `Delivery.AcceptIsHonestExactly` says that nothing else does it, and
  `DeliveryRuns.NothingIsLost` that it costs no message but the one whose own COMMIT failed. A COMMIT that fails can
  also leave its transaction open; then every BEGIN fails until the server restarts: `DeliveryRuns.OpenTransactionStopsAll`.
- The client sends E2EACK before it hands the message to `on_chat`, although E2EACK is documented as proof that the
  application has the message (legacy/chat_client_v3.py:459-470). `DeliveryWitness.KillInHandLosesDisplay` is a run in
  which a kill in between leaves a message that no continuation displays. `DeliveryDisplay.CanBeDisplayedExactly` says
  when a message can still be displayed, and `DeliveryDisplay.OnlyKillsLose` that a lost one was in hand at a kill.
- The single verdict slot of group commit can answer for a later batch (src/database.cpp:168-169).
  `GroupCommitRuns.LateJoinerIsMisled` is such a run, `GroupCommitProofs.AnswerExact` says when answers are right.
  A row whose `last_insert_rowid` query fails may be committed although its caller is told otherwise.
- The send queue holds 256 KiB and a frame may have 1 MiB, so `kMaxFrame` is never what stops a frame:
  `SendQueue.LargestFrameExactly`.
- An empty cursor is documented to mean the end of the history (src/server.cpp:972), but the last page has a cursor
  whenever it has rows: `Paging.LastPageHasCursor` is an input, `Paging.EndOfHistoryExactly` says that `more` tells the
  end on every page and the cursor does so just when no row matches or more match than fit on a page.
- The filtered text can hold a word of the list again when that word has the mask byte:
  `WordSpec.MaskByteInWordLeaves`, `WordSpec.WordRemovedExactly`.
- A password login is refused while the account is online (src/server.cpp:773-784), but a connection that is dropped
  between the check of its proof and its entry into `online_` leaves an entry that no later drop removes
  (src/server.cpp:785-792, src/server.cpp:1213-1234): the account counts as online with nobody logged in.
  `AuthLockout.DroppedLoginLocksOut` shows it, `AuthLockout.CanLogInExactly` says when a password login is still possible.
- The key table of the rate limiter keeps to `max_keys` only from two upwards: `KeyedLimiter.BoundedExactly`.

## Model

| member | source | states |
|---|---|---|
| GroupCommit.Database.EnterBatch | src/database.cpp:148-163 | who begins a transaction, who joins it, who writes alone, and the batch count after it |
| GroupCommit.Database.ResolveTx | src/database.cpp:190-210 | the open rows become durable together or vanish together; count, verdict and generation move on |
| GroupCommit.Database.InsertMsg | src/database.cpp:310-356 | a whole insert up to its first wait: state and progress for every outcome of BEGIN, INSERT and the id query |
| GroupCommit.Database.FinishStarter | src/database.cpp:165-184 | the starter's answer, state and tables are those of the machine's Resolve step, whatever the other calls do: its id exactly when its COMMIT succeeded |
| GroupCommit.Database.FinishJoiner | src/database.cpp:165-169 | a joiner is given the answer that the machine's Wake step records, for every state of the other calls: the verdict of whichever batch was resolved last |
| GroupCommit.Database.WriteOther | src/database.cpp:214-274 | the return codes and the rows of the four writers outside every batch, unique names of users and rooms included |
| GroupCommitProofs.StepKeeps | src/database.cpp:148-210 | every step of every thread keeps the invariant: one live starter per open batch, no lost wake-up, every row where its generation says |
| GroupCommitProofs.RunsKeep | src/database.cpp:148-210 | the invariant holds in every reachable state |
| GroupCommitProofs.DiskByGeneration | src/database.cpp:190-210 | a call's row is durable iff it was stored alone or in a batch that committed |
| GroupCommitProofs.AnswerExact | src/database.cpp:148-210 | in every run an answer is right (an id iff the row is committed) exactly under a stated condition on the role of the call and the verdict it read |
| GroupCommitProofs.PromptJoinerIsRight | src/database.cpp:165-184 | a joiner that wakes before a second resolve is told the truth |
| GroupCommitProofs.TrueIdNamesOwnRow | src/database.cpp:310-356 | a truthful id is the id of the caller's own row |
| GroupCommitProofs.NoRollbackNoLie | src/database.cpp:148-210 | in runs without rollback every returned id names a committed row, with no hypothesis on timing |
| GroupCommitProofs.HealthyCallsSucceed | src/database.cpp:310-356 | when no INSERT, id query or COMMIT fails, every call that returned has the id of its own committed row, whoever started, joined or slept |
| GroupCommitRuns.DiskOnlyGrows | src/database.cpp:190-210 | durable rows and writes to other tables are never removed or reordered |
| GroupCommitRuns.NamesStayUnique | src/database.cpp:214-274 | in no run are two users or two rooms of the same name stored |
| GroupCommitRuns.CodesAreExact | src/database.cpp:214-274 | a write takes effect exactly if its code is success, and each other code has its one reason |
| GroupCommitRuns.OthersAreExact | src/database.cpp:214-274 | the other tables hold, in order, exactly the writes that SQLite did not refuse, of a user's or room's name the first one |
| GroupCommitRuns.RefinesSerialCommits | src/database.cpp:148-210 | the table is what one commit per insert would leave: rows of committed batches in lock order, ids increasing, one row a call, 1 to 32 pending while a batch is open and 0 otherwise |
| GroupCommitRuns.RollbackIsExact | src/database.cpp:190-210 | a resolve changes durability of exactly the rows of its own batch, according to its verdict |
| GroupCommitRuns.EveryStepCounts | src/database.cpp:148-210 | every step the scheduler owes a thread brings the writers closer to returning |
| GroupCommitRuns.NoDeadlock | src/database.cpp:186-188 | while a call is unfinished some thread can go on; an open batch has a starter that can resolve it |
| GroupCommitRuns.LateJoinerIsMisled | src/database.cpp:165-184 | a run in which a joiner returns the id of another call's row while its own was rolled back |
| Delivery.AllocStrictlyIncreases | legacy/chat_client_v3.py:162-177 | numbers strictly increase for any clock, backwards included, and lie above each clock reading |
| Delivery.PendingStore.AllocSeq | legacy/chat_client_v3.py:162-177 | the drawn number and the counter are on disk when the call returns |
| Delivery.PendingStore.Put | legacy/chat_client_v3.py:179-192 | `add` and `update` put the item into the file, even one an ACK removed meanwhile |
| Delivery.PendingStore.Remove | legacy/chat_client_v3.py:184-187 | exactly that number leaves the file |
| Delivery.PendingStore.Snapshot | legacy/chat_client_v3.py:198-200 | all numbers of the queue, ascending |
| Delivery.AcceptIsHonestExactly | legacy/chat_server_v4.cpp:535-570 | a non-negative result stands for a stored message exactly when it is not a first acceptance whose COMMIT fails |
| Delivery.Database.AcceptMessage | legacy/chat_server_v4.cpp:535-570 | both tables after every outcome: first acceptance, duplicate, failure at each statement, a COMMIT that fails and is rolled back or leaves the transaction open |
| Delivery.Database.DeleteOfflineFor | legacy/chat_server_v4.cpp:599-613 | only the row of that recipient, sender and number is deleted, for good or inside a transaction left open |
| Delivery.Database.FetchOffline | legacy/chat_server_v4.cpp:573-596 | exactly the rows of one user, in increasing (ts, id) |
| DeliveryCode.ChatSession.TrySendItem | legacy/chat_client_v3.py:319-334 | the frame written and the item after it, for each outcome; past the limit of attempts the item is marked failed |
| DeliveryCode.ChatSession.FlushPending | legacy/chat_client_v3.py:336-345 | pending messages go out in number order with their own text, each at most once, all of them if the socket takes them; none is forgotten |
| DeliveryCode.DoMessage | legacy/chat_server_v4.cpp:967-1017 | tables, reply and forwarding are those of the machine's step, whatever the rest of its state |
| DeliveryServer.RowIsNew | legacy/chat_server_v4.cpp:542-562 | every stored row has its key in the seen table, so the second INSERT OR IGNORE never ignores |
| DeliveryServer.HandleKeeps | legacy/chat_server_v4.cpp:773-816 | LOGIN, MESSAGE and E2EACK keep the invariant |
| DeliveryServer.ConfirmKeeps | legacy/chat_server_v4.cpp:795-807 | a row is deleted only after its recipient's client read the message |
| DeliveryServer.RunKeeps | legacy/chat_server_v4.cpp:943-1047 | looking up the recipient, pushing stored rows and writing frames keep the invariant |
| DeliveryServer.RestartKeeps | legacy/chat_server_v4.cpp:1213-1225 | a restart that loses every connection and thread keeps the invariant |
| DeliverySteps.SendKeeps | legacy/chat_client_v3.py:277-284 | a new message under an unused number keeps the invariant |
| DeliverySteps.UpdateKeeps | legacy/chat_client_v3.py:319-334 | re-inserting an item already acknowledged keeps the invariant |
| DeliverySteps.AckKeeps | legacy/chat_client_v3.py:433-442 | an ACK removes an item only of a message that the server has |
| DeliverySteps.RelayKeeps | legacy/chat_client_v3.py:454-470 | confirming, deduplicating and taking a message in hand keeps the invariant |
| DeliverySteps.KillKeeps | legacy/chat_client_v3.py:123-160 | kill -9 loses everything but the file and keeps the invariant |
| DeliveryRuns.RunsKeep | legacy/chat_server_v4.cpp:535-612 | the invariant holds in every state of every run: interleavings, cut connections, failing transactions, restarts, kills |
| DeliveryRuns.NothingIsLost | legacy/chat_server_v4.cpp:943-1047 | every private message given to `send` is in its sender's file, or committed in the offline table as it was sent, or was read by its recipient's client; only a message whose own COMMIT failed is excepted |
| DeliveryRuns.AckMeansStored | legacy/chat_server_v4.cpp:1019-1022 | an ACK under way stands for a message in the tables, or already read, unless its own COMMIT failed |
| DeliveryRuns.OpenTransactionStopsAll | legacy/chat_server_v4.cpp:535-570 | once a failed COMMIT leaves its transaction open, nothing is accepted or committed until the server restarts |
| DeliveryRuns.ReadIsDisplayed | legacy/chat_client_v3.py:454-470 | what a client read was displayed, is in hand, or was caught by a kill before its display |
| DeliveryRuns.VanishedExactly | legacy/chat_client_v3.py:454-470 | the messages that a kill caught are exactly those in hand at a kill of that client |
| DeliveryRuns.AcceptedExactlyOnce | legacy/chat_server_v4.cpp:535-570 | no (user, seq) is accepted twice across restarts unless its own COMMIT failed, the seen table holds exactly those accepted, and what was accepted has the recipient, text and time of its one `send` |
| DeliveryRuns.NumbersAreNeverReused | legacy/chat_client_v3.py:162-177 | no later step changes what a (user, seq) stands for, nor an acceptance that was committed |
| DeliveryRuns.OnlyRecipientsRead | legacy/chat_server_v4.cpp:1024-1047 | a message is read only by clients it was addressed to |
| DeliveryRuns.DisplayedOncePerProcess | legacy/chat_client_v3.py:466-470 | one process displays a message at most once, however often it is pushed |
| DeliveryProgress.Join | legacy/chat_server_v4.cpp:879-933 | from any reachable state a user with a valid name can get a session, an older one of the same user notwithstanding |
| DeliveryProgress.Deposit | legacy/chat_client_v3.py:319-334 | from any reachable state a pending message between valid names can be accepted, attempts used up or a transaction left open or not |
| DeliveryProgress.Collect | legacy/chat_server_v4.cpp:943-966 | from any reachable state a stored message can be pushed to its recipient and read |
| DeliveryProgress.EveryMessageCanArriveExactly | legacy/chat_server_v4.cpp:943-1047 | whatever happened so far, a private message given to `send` can still be read by its recipient, exactly when both names are valid and the recipient is a user; only one whose own COMMIT failed is excepted |
| DeliveryForward.ForwardReachesExactly | legacy/chat_server_v4.cpp:1005-1014 | in every reached state a lookup queues one relay of what was sent for each online user of a public message, the sender included, and for the recipient alone of a private one, each on its own connection, and changes nothing else |
| DeliveryForward.AllInSessionCanDisplay | legacy/chat_server_v4.cpp:1126-1134 | from any such state one continuation displays the message to all recipients in session |
| DeliveryForward.PublicCanReachEverybody | legacy/chat_server_v4.cpp:967-1017 | a public message still in its sender's file can be accepted and displayed to everybody in session and to the sender, in one continuation, unless a transaction is left open |
| DeliverySettle.CanSettleExactly | legacy/chat_client_v3.py:433-442 | whatever happened so far, a message can leave its sender's file with an ACK exactly if the server accepts the sender's name and the address |
| DeliverySettle.NackMarks | legacy/chat_client_v3.py:443-453 | a refused message stays in the file and is marked, and no other item changes |
| DeliverySettle.RowGoesExactly | legacy/chat_server_v4.cpp:599-613 | a stored row can be pushed, confirmed and deleted exactly if its recipient is a user |
| DeliverySettle.LoggedOutChangesNothing | legacy/chat_server_v4.cpp:773-816 | without a login a MESSAGE is only answered by a NACK and an E2EACK is ignored |
| DeliverySettle.OneSessionEach | legacy/chat_server_v4.cpp:879-933 | in every run each user has at most one connection that counts as logged in, and `online_` names exactly these |
| DeliveryDisplay.CanBeDisplayedExactly | legacy/chat_client_v3.py:454-470 | whatever happened so far, a private message can still be displayed to its recipient exactly if a copy of it is left: not accepted yet, stored, being looked up, on or about to be written to the recipient's current connection, in hand, or displayed already |
| DeliveryDisplay.GoneForGood | legacy/chat_client_v3.py:454-470 | once no copy is left, no resending, reconnect or restart brings one back |
| DeliveryDisplay.OnlyKillsLose | legacy/chat_client_v3.py:454-470 | a message that can never be displayed any more was in hand at some kill of its recipient's client |
| DeliveryWitness.UnnoticedCommitFailureLoses | legacy/chat_server_v4.cpp:568-569 | a run with one failing COMMIT after which an acknowledged message is nowhere |
| DeliveryWitness.KillInHandLosesDisplay | legacy/chat_client_v3.py:454-470 | a run without any failing COMMIT after which a confirmed message is not displayed in any continuation |
| JsonRoundTrip.RoundTripExact | include/chat/minijson.h:258-333 | parsing the printed object gives it back, with nothing left over, exactly when keys are unique at every level, no object is missing and no number is at or below -2^63 |
| JsonRoundTrip.ParseIsIdempotent | include/chat/minijson.h:258-265 | what was parsed once prints and parses to itself, for every accepted text |
| JsonRoundTrip.BodyIsCanonical | include/chat/minijson.h:193-213 | whatever the parser accepts has unique keys and numbers that fit |
| JsonRoundTrip.StringRoundTrip | include/chat/minijson.h:131-173 | any byte string is read back from its escaped form |
| JsonRoundTrip.NumberRoundTrip | include/chat/minijson.h:175-189 | every number above -2^63 is read back from its decimal text |
| JsonGrammar.ParseExactly | include/chat/minijson.h:95-265 | the parser accepts exactly the texts of a grammar given by bytes (spaces, escapes, numerals with ignored fraction and exponent, arrays, objects) and gives exactly what they mean |
| JsonGrammar.CodeReads | include/chat/minijson.h:151-165 | `\uXXXX` puts in the character of that number |
| JsonGrammar.PairReads | include/chat/minijson.h:156-162 | two surrogates put in the one character that they stand for |
| JsonUtf8.EncodedIsValid | include/chat/minijson.h:101-115 | `append_utf8` gives valid UTF-8 for every code point that is no surrogate |
| JsonUtf8.Utf8SpellsIt | include/chat/minijson.h:101-115 | the bits of the bytes that `append_utf8` writes spell the code point again |
| JsonUtf8.Utf8IsUnique | include/chat/minijson.h:101-115 | every well-formed character is what `append_utf8` writes for the bits in it |
| JsonUtf8.ParsedTextIsUtf8 | include/chat/minijson.h:131-265 | from valid UTF-8 text every parsed key and string is valid UTF-8, surrogate pairs included |
| JsonCode.SetField | include/chat/minijson.h:42-46 | the first field with that key is overwritten, or one is appended |
| JsonCode.AppendUtf8 | include/chat/minijson.h:101-115 | the bytes of a code point, refused above 0x10FFFF |
| JsonCode.ReadHex4 | include/chat/minijson.h:117-129 | four hex digits as a number, or a refusal |
| JsonCode.ParseString | include/chat/minijson.h:131-173 | the index loop reads exactly the string that stands at the index |
| JsonCode.ParseNumber | include/chat/minijson.h:175-189 | integer part, skipped fraction and exponent; overflow is reported |
| JsonCode.ParseValue | include/chat/minijson.h:215-256 | the recursive descent by index agrees with the parser on suffixes |
| JsonCode.ParseText | include/chat/minijson.h:258-265 | the whole parse: value, rejection or overflow |
| JsonCode.EscapeString | include/chat/minijson.h:269-290 | the escaped bytes |
| JsonCode.SerializeValue | include/chat/minijson.h:292-322 | appends exactly the printed value |
| JsonCode.SerializeObject | include/chat/minijson.h:324-333 | the text of a whole object |
| ByteOrder.JoinedIsBigEndian | src/frame.cpp:24-25 | shifting and or-ing four bytes reads them as a big-endian number |
| ByteOrder.ShiftsAreBigEndian | src/frame.cpp:8-12 | the four bytes that the shifts cut out spell the length |
| Frame.MakeWireFrame | src/frame.cpp:6-15 | the length modulo 2^32, big-endian, then the body |
| Frame.WireOnBytes | src/frame.cpp:6-15 | the four bytes weighted by powers of 256 give the length, and the body follows |
| Frame.DecodeLosesNothing | src/frame.cpp:21-31 | what is decoded is exactly what was framed, and the rest is kept |
| Frame.DecodeAppend | src/frame.cpp:21-31 | later bytes never change what earlier bytes decoded to |
| Frame.RoundTripExact | src/frame.cpp:6-31 | concatenated frames decode to the very bodies exactly when each fits the limit and 32 bits |
| Frame.PrefixOfFrames | src/frame.cpp:21-31 | a stream cut anywhere yields a prefix of the bodies and no error |
| Frame.ChunkingIsInvisible | src/frame.cpp:17-31 | for every cut into chunks and every pattern of `next` calls the bodies begin the one-shot decoding, and are all of it once `next` gives nothing more |
| Frame.ReaderSeesPrefix | src/frame.cpp:17-31 | a reader fed any part of framed bodies returns them in order and never fails |
| Frame.FrameReader.FeedData | src/frame.cpp:17-19 | bytes are appended, unless the reader failed |
| Frame.FrameReader.NextBody | src/frame.cpp:21-31 | what is taken from the buffer is exactly the frame of the body returned |
| Frame.FrameReader.FeedAndDrain | src/server.cpp:315-317 | after feeding and draining, everything returned is the one-shot decoding of everything fed |
| SendQueue.DrainMoves | src/server.cpp:436-457 | draining moves bytes from the queue to the wire and changes nothing else |
| SendQueue.SoftAnswersNeverBreak | src/server.cpp:436-457 | short writes, signals and a full buffer never cost the connection |
| SendQueue.DrainMakesProgress | src/server.cpp:436-457 | a socket that takes bytes empties the queue by exactly the bytes it takes |
| SendQueue.StreamIntegrity | src/server.cpp:405-457 | until the first false return, written plus waiting bytes are the frames accepted, and at most 256 KiB wait |
| SendQueue.EndToEnd | src/server.cpp:405-479 | a reader of the written bytes gets a prefix of the objects sent; each parses back exactly when it is canonical; all of them once everything is read |
| SendQueue.SentFaithfully | src/server.cpp:463-479 | as long as nothing broke, the objects sent are one by one those of the accepted calls: every key but `seq` has the value given, none is added, a relay has its origin's number and the server's frames the counter of the connection |
| SendQueue.OwnNumbersIncrease | src/server.cpp:463-470 | the numbers of the server's own frames on a connection go up |
| SendQueue.PeerReadsWhatWasGiven | src/server.cpp:405-479 | what the peer reads parses, in order, to the objects given to the accepted calls, each with its number and otherwise unchanged |
| SendQueue.DrainFailsExactly | src/server.cpp:436-457 | on an open descriptor draining fails exactly on a hard error while bytes are left |
| SendQueue.RefusedExactly | src/server.cpp:405-417 | a frame is refused exactly if the descriptor is closed, the queue would pass 256 KiB, or the write that follows at once meets a hard error with bytes left |
| SendQueue.LargestFrameExactly | src/server.cpp:403-417 | after any history of an open connection an object can still be relayed, sooner or later, exactly if its frame fits into an empty queue |
| SendQueue.Connection.DrainOutLocked | src/server.cpp:436-457 | the loop against any answers of the socket |
| SendQueue.Connection.SendLocked | src/server.cpp:406-417 | the frame joins the queue first; over the bound the call fails; a slow TLS queue is only appended to |
| SendQueue.Connection.SendFrameObject | src/server.cpp:463-470 | the object goes out with the next number of its connection, unless it is too long |
| SendQueue.Connection.SendRelayObject | src/server.cpp:472-479 | the object goes out with the number of its sender |
| ReactorOrder.StepKeeps | legacy/chat_server_v3.cpp:473-513 | accept, read, worker and output steps keep every connection's pipeline in order |
| ReactorOrder.RepliesInOrder | legacy/chat_server_v3.cpp:791-863 | in every interleaving the replies in a connection's queue answer frames of that connection, in the order of the frames, each at most once |
| ReactorOrder.NoCrossTalk | legacy/chat_server_v3.cpp:842-863 | a reply is only ever added to the connection whose descriptor and generation it carries |
| ReactorOrder.NoReplyIsMissing | legacy/chat_server_v3.cpp:791-863 | when every request is answered, the frames read from a live connection are, in order and without a gap, those replied, waiting, running or queued |
| ReactorOut.ApplySettles | legacy/chat_server_v3.cpp:842-863 | a live connection has an exact byte count within its bound, and EPOLLOUT armed whenever bytes are left |
| ReactorOut.WritableSettles | legacy/chat_server_v3.cpp:691-694 | the same after the EPOLLOUT branch |
| ReactorOut.EndsExactly | legacy/chat_server_v3.cpp:842-880 | a connection is ended exactly when the frame takes the unsent bytes over 8 MiB or the socket gives a hard error before the queue is empty |
| ReactorOut.FlushGoesOn | legacy/chat_server_v3.cpp:865-880 | a socket that takes bytes gets more with every answer until nothing is left |
| ReactorOut.ReplyStream | legacy/chat_server_v3.cpp:842-880 | a reader of what the socket took gets a prefix of the replies applied, all of them once everything is written and read |
| ReactorWire.PeerReadsRepliesInOrder | legacy/chat_server_v3.cpp:791-880 | in every interleaving, with descriptors reused and sockets that are slow or fail, a reader of one connection gets whole replies to frames of that connection, in the order of the frames, each at most once, and nothing else |
| ReactorWire.EveryReplyInPlace | legacy/chat_server_v3.cpp:791-880 | when every request is answered, reply number i that the peer of a live connection reads answers its frame number i |
| ReactorWire.RunsKeep | legacy/chat_server_v3.cpp:842-880 | in every interleaving the bytes written and waiting of each connection, ended ones included, are the frames of exactly the replies queued for it; live ones are within their bound and wait for EPOLLOUT |
| ReactorOut.Connection.FlushConn | legacy/chat_server_v3.cpp:865-880 | segments leave in order, `out_bytes` counts the unsent bytes |
| ReactorOut.Connection.ApplyOutput | legacy/chat_server_v3.cpp:842-863 | the new output, or the end of a connection that is too slow or broken |
| ReactorOut.Connection.OnWritable | legacy/chat_server_v3.cpp:691-694 | flush, and disarm once empty |
| WordSpec.ScanIsLeftmostLongest | src/word_filter.cpp:68-97 | the scan satisfies the declarative leftmost-longest reference |
| WordSpec.LeftmostLongestIsUnique | src/word_filter.cpp:68-97 | no other list of matches satisfies it |
| WordSpec.OccurrenceOverlapsMatch | src/word_filter.cpp:68-97 | every occurrence of a word overlaps some match |
| WordSpec.ScanFindsSomething | src/word_filter.cpp:99-105 | there is a match iff some word occurs |
| WordSpec.SameLetter | src/word_filter.cpp:24-29 | two bytes are the same to the filter exactly if they are equal or the two cases of one ASCII letter |
| WordSpec.CharsAreCharacters | src/word_filter.cpp:108-113 | in well-formed UTF-8 the count is the number of characters |
| WordSpec.LeftoverHasMask | src/word_filter.cpp:115-129 | whatever the list, a word left in the filtered text has the mask byte in it |
| WordSpec.WordRemovedExactly | src/word_filter.cpp:115-129 | a word never occurs in the filtered text, for every text and every list with it, exactly when the mask byte is not in the word |
| WordSpec.FilteredTextIsClean | src/word_filter.cpp:115-129 | if no word has the mask byte, no word is left in the filtered text and filtering again changes nothing |
| WordSpec.MaskByteInWordLeaves | src/word_filter.cpp:115-129 | an input for which that fails when a word has the mask byte |
| WordSpec.CharsKeptExactly | src/word_filter.cpp:108-129 | every text keeps its number of UTF-8 characters iff every word has a byte that starts one |
| WordFilter.WordFilter.AddWord | src/word_filter.cpp:31-52 | the terminal nodes stay exactly the lower-cased words under their first spelling, and the count counts them |
| WordFilter.WordFilter.ScanText | src/word_filter.cpp:68-97 | the loops over the trie compute the leftmost-longest matches of the word set |
| WordFilter.WordFilter.LongestMatch | src/word_filter.cpp:71-86 | one descent of the trie finds the longest word at a place |
| WordFilter.WordFilter.Contains | src/word_filter.cpp:99-105 | true iff some word occurs in the lower-cased text; the hit is the first match's word |
| WordFilter.WordFilter.Filter | src/word_filter.cpp:115-129 | copying gaps and masks gives the text masked match by match |
| TokenBucket.AdmittedIsBounded | src/rate_limiter.cpp:6-19 | for any calls and any clock, admitted demand is at most what was in the bucket plus rate times the advance of `last_refill_` plus 1e-9 |
| TokenBucket.EveryStretchIsBounded | src/rate_limiter.cpp:6-19 | every stretch of a new bucket's calls gets at most a burst plus rate times that advance plus 1e-9 |
| TokenBucket.NeverRejectedExactly | src/rate_limiter.cpp:6-19 | on a forward clock nothing is ever rejected iff every window demands at most burst plus rate times its length plus 1e-9 |
| TokenBucket.TokenBucket.RefillAt | src/rate_limiter.cpp:6-12 | no refill at or before the last one; never above the burst |
| TokenBucket.TokenBucket.TryConsume | src/rate_limiter.cpp:14-19 | the verdict and the bucket after it |
| KeyedLimiter.EvictionIsInvisible | src/rate_limiter.cpp:26-57 | when an idle key refills before it may be dropped and the table is never crowded, every call is answered as if no bucket had been evicted |
| KeyedLimiter.BoundedExactly | src/rate_limiter.cpp:26-57 | the table keeps to `max_keys` in all runs iff that is at least two |
| KeyedLimiter.KeptExactly | src/rate_limiter.cpp:26-58 | after a call the table has every key it had, as long as there is room; otherwise exactly those whose last use lies within the idle time, and half of these if they are still too many |
| KeyedLimiter.KeyedRateLimiter.Allow | src/rate_limiter.cpp:26-39 | table, verdict and counters after a call |
| KeyedLimiter.KeyedRateLimiter.GcLocked | src/rate_limiter.cpp:46-58 | idle keys go, and half of the rest if that leaves no room |
| Paging.CursorRoundTrip | src/protocol.cpp:28-41 | a printed position is read back exactly when both numbers are positive, and refused otherwise |
| Paging.AtollReads | src/protocol.cpp:28-41 | any text is read as its blanks, sign and digits, whatever comes behind |
| Paging.RankedOk | src/database.cpp:418-528 | the ranking holds exactly the matching rows, newest first |
| Paging.SendHistPage | src/server.cpp:948-976 | the page shows the rows oldest first, with the position of its oldest row as cursor |
| Paging.DoHist | src/server.cpp:978-1022 | the answer to every cursor text, malformed ones included |
| Paging.PageIsLatest | src/server.cpp:948-1022 | a page shows rows of that room or received by that user and before the cursor, oldest first by time and number, and the 50 latest of these if there are more |
| Paging.EndOfHistoryExactly | src/server.cpp:948-976 | for every table and accepted cursor, the end of the history is told by `more`, the cursor is empty exactly on an empty page, and the two agree exactly when no row matches or more match than fit on a page |
| Paging.LastPageHasCursor | src/server.cpp:961-972 | a table with one row whose only page is the last and has a cursor |
| Paging.WalkIsExact | src/server.cpp:948-1022 | following cursors shows no row twice, in strictly decreasing (ts, id), nothing that is not there, and every row present at the start once a page says `more=0`, whatever is added between pages |
| Paging.WalkFinishes | src/server.cpp:978-1022 | a walk is told that nothing follows before it has asked for more pages than the rows could fill |
| Hash.FewestZeros | include/chat/pwd_hash.h:154-160 | the padding has as few zero bytes as section 5.1.1 of FIPS 180-4 asks for |
| Hash.PaddedForm | include/chat/pwd_hash.h:154-169 | message, bit 1, zeros, and the number of bits in 64 bits, filling whole blocks |
| Hash.PaddingIsInjective | include/chat/pwd_hash.h:154-169 | different messages below 2^61 bytes are different after padding |
| Hash.ByteStreams | include/chat/pwd_hash.h:143-152 | one more byte keeps chaining value, waiting bytes and bit count in step with everything fed |
| Hash.Ctx.Update | include/chat/pwd_hash.h:143-152 | feeding any chunk is feeding its bytes, so chunks do not matter |
| Hash.Ctx.Final | include/chat/pwd_hash.h:154-169 | the digest is the fold of the compression function over the padded message |
| Kdf.HmacSha256 | include/chat/pwd_hash.h:181-207 | HMAC of section 2 of RFC 2104, also when message and result are the same array |
| Kdf.HmacOnBytes | include/chat/pwd_hash.h:181-207 | the two digests over the key, zero-filled or hashed, with each byte xored by 0x36 and 0x5c |
| Kdf.Rounds | include/chat/pwd_hash.h:226-233 | U_1 to U_c mixed by exclusive or, feeding each back into itself |
| Kdf.Pbkdf2 | include/chat/pwd_hash.h:212-239 | the derived key of section 5.2 of RFC 8018, for every iteration count and length |
| Kdf.DerivedByBlocks | include/chat/pwd_hash.h:212-239 | each byte of the key is the byte of its block, blocks numbered from 1 |
| Kdf.MixedIsParity | include/chat/pwd_hash.h:226-233 | a block is, bit by bit, the parity of U_1 to U_c, each U being HMAC of the one before |
| Kdf.XorTwice | include/chat/pwd_hash.h:393-394 | exclusive or with the same byte twice changes nothing |
| Kdf.XorIsBitwise | include/chat/pwd_hash.h:393-394 | exclusive or sets exactly the bits in which two bytes differ |
| Auth.HexRoundTrip | include/chat/pwd_hash.h:48-73 | bytes and lower-case hex text determine each other; nothing else is read |
| AuthCode.ToHex | include/chat/pwd_hash.h:48-57 | two lower-case digits for each byte, high half first |
| AuthCode.ReadHex | include/chat/pwd_hash.h:59-73 | the loop over digit pairs decodes or refuses |
| AuthCode.ConstantTimeEq | include/chat/pwd_hash.h:76-81 | comparison without an early exit is equality |
| AuthCode.ProveKey | include/chat/pwd_hash.h:355-366 | HMAC of operation, user and nonce under the key, in hex; the empty text for ill-formed input |
| AuthCode.BlindKey | include/chat/pwd_hash.h:384-396 | the key mixed with HMAC of user and salt under the pepper, in hex; the empty text for ill-formed input |
| AuthCode.DeriveKey | include/chat/pwd_hash.h:320-339 | PBKDF2 over the decoded salt, in hex |
| Auth.PepperUndoesItself | include/chat/pwd_hash.h:384-395 | applying the pepper twice gives the key back exactly for well-formed keys and peppers |
| Auth.PepperOnBytes | include/chat/pwd_hash.h:384-396 | what is stored differs from the key, byte by byte, by HMAC under the pepper of user and salt |
| Auth.PasswordOnBytes | include/chat/pwd_hash.h:320-339 | the key is PBKDF2 of the password and the decoded salt, 100000 rounds, 32 bytes |
| Auth.ProofOnBytes | include/chat/pwd_hash.h:355-366 | a proof decodes to HMAC under the key of operation, user and nonce |
| Auth.MessagesAreUnambiguous | include/chat/pwd_hash.h:355-366 | operation, user and nonce can be told from the message that is authenticated |
| Auth.ChallengesAreFresh | src/server.cpp:538-562 | each challenge of a connection carries what one HELLO of its own drew and lives for 60 seconds |
| Auth.HellosMakeOne | src/server.cpp:538-551 | however often one user repeats a HELLO within a minute, at most one challenge is made |
| Auth.ChallengePassesOnce | src/server.cpp:538-578 | each generated challenge lets at most one answer through, for its user and purpose and in time, repeated HELLOs included |
| Auth.HonestLoginVerifies | src/server.cpp:633-772 | an honest client registers and later logs in, for every password, salt, pepper and nonce, with other accounts made in between |
| Auth.LoginExactly | src/server.cpp:741-772 | after a registration exactly the proof made with the registered key logs in |
| Auth.RegisterExactly | src/server.cpp:633-700 | who gets an account, said on bytes, and what is stored for it |
| Auth.ReplayIsCollision | src/server.cpp:741-772 | a proof that passed passes under a challenge with another nonce exactly if HMAC under the registered key has the same value for two different messages |
| AuthCode.Session.SendChallenge | src/server.cpp:538-562 | a live challenge for the same user and purpose is sent again, otherwise a new one is made |
| AuthCode.Session.TakeChallenge | src/server.cpp:566-578 | the challenge is gone whatever the outcome |
| AuthCode.AuthServer.DoRegisterHello | src/server.cpp:580-606 | slot and verdict for every input: logged in already, too often, bad name, name taken, challenge sent |
| AuthCode.AuthServer.DoLoginHello | src/server.cpp:608-631 | the same for logins, with the salt of the account |
| AuthCode.AuthServer.DoRegister | src/server.cpp:633-700 | account table, challenge and verdict for every input; a connection that is logged in is refused and keeps its challenge |
| AuthCode.AuthServer.DoLogin | src/server.cpp:734-792 | challenge, session table and verdict for every input; an account that is online is refused only after the proof was checked |
| Tokens.TokenIsValidExactly | include/chat/token_book.h:26-51 | on a forward clock a token is valid exactly until the second its latest `issue` set, for the user named there, whatever was swept or removed in between |
| Tokens.TokenBook.Issue | include/chat/token_book.h:26-38 | the entry under the hash, and the sweep of a crowded table |
| Tokens.TokenBook.Validate | include/chat/token_book.h:40-51 | the user of a live token; an expired one is removed |
| Tokens.TokenBook.GcLocked | include/chat/token_book.h:69-76 | exactly the expired entries go |
| AuthRuns.RunsKeep | src/server.cpp:538-828 | in every run accounts hold their registered keys blinded, and every session, entry and token goes back to a login that was proved |
| AuthRuns.AccountsNeverChange | src/server.cpp:633-700 | no later step of any connection changes an account or the key it was made with |
| AuthRuns.OnlyTheKeyLogsIn | src/server.cpp:734-828 | whoever is logged in to an account, by password or by any chain of tokens, goes back to a login with the proof for its registered key and a challenge made for that account on that connection |
| AuthRuns.ChallengesAreSpent | src/server.cpp:564-578 | no two logins of a run were let through by the same challenge |
| AuthRuns.ReusedProofIsCollision | src/server.cpp:734-784 | two logins of a run with one proof under different nonces are two different messages with the same HMAC under the registered key |
| AuthRuns.LoginAfterAnyRunExactly | src/server.cpp:734-784 | after a registration and any run, a login frame passes exactly if the connection is not logged in, its challenge for the account is live, the account is not online, and the proof is that of the registered key |
| AuthRuns.HonestClientLogsIn | src/server.cpp:608-784 | a client that knows the password an account was registered with passes after any run, from the salt and nonce of its challenge alone |
| AuthLockout.CanLogInExactly | src/server.cpp:734-795 | in every reached state an account can still be logged in to by password on a new connection exactly unless it counts as online on a dropped connection and no login on a living one is about to replace it |
| AuthLockout.DroppedLoginLocksOut | src/server.cpp:773-795 | from any reached state in which an account is offline and nobody is being logged in to it, its own login can end in that lockout |

## Left out

- Sockets, TLS, threads and SQLite themselves: they appear as outcomes of steps and as tables of rows. TLS errors after a partial write end the connection here as they do there.
- Wait loops of condition variables are the guards of the steps behind them; spurious and lost wake-ups are modelled, the window and cost heuristics of group commit only decide when a starter resolves and are left open.
- GroupCommitProofs.AnswerExact: a ROLLBACK that fails and a transaction that SQLite rolls back by itself are not modelled, and the generation counter does not wrap.
- DeliveryRuns.NothingIsLost: a message whose own COMMIT failed is excepted, which `DeliveryWitness.UnnoticedCommitFailureLoses` shows to be needed. The client's file is taken to be written. One client process per user at a time, under its own name.
- DeliveryRuns.RunsKeep: order of frames from different threads is left open in the delivery machine, and LOGOUT, PING and status broadcasts are not in it.
- JsonCode.ParseNumber: integers outside `long long` are reported as overflow, since C++ leaves them undefined; bit-or of disjoint bits is written as addition.
- Paging.CursorRoundTrip: `atoll` is unbounded here; digits beyond `long long` are undefined in C++.
- Paging.WalkIsExact: assumes that rows are only added; a row shown from a batch that is rolled back later is not modelled. Names, types and page fields that do not affect the walk are left out.
- SendQueue.StreamIntegrity: nothing is claimed after the first false return, since `notifyOverpressure` then writes past the queue.
- KeyedLimiter.EvictionIsInvisible: numbers are exact reals, floating-point rounding is not modelled; which half of a crowded table is dropped is left open.
- Kdf.Pbkdf2: derived keys longer than RFC 8018 allows repeat block numbers, as the code does.
- Hash.Ctx.Final: the compression function and the initial value are taken as given; the shifts of the 64-bit length are written as divisions. The cryptographic strength, the random source and the degraded hash variant are not part of this model.
- Auth.HonestLoginVerifies: that SQLite cannot read an account counts as no such account and is not told apart. Random salts, nonces and tokens are parameters.
- AuthRuns.LoginAfterAnyRunExactly: the check for an online account and the entry into the session table are two steps, as in the code; how many connections of one account may be logged in at a time is not counted, and a restart of the server is not in this machine.
- ReactorOrder.RepliesInOrder: each output has one target; the shutdown of the thread pool is not modelled.
- Rooms, sequence deduplication of the v5 server, name rules on their own, GUI, logging, configuration and benchmarks would only add easy members.
- An unconditional "ACK means persisted" for the v5 server does not hold and is not claimed.
