# Verified models of SCLOrkTools

SCLOrkTools is the software of a laptop orchestra. This project models the parts of it whose
correctness is hard to see from any one function, and proves what they are for.
`dafny verify dfyconfig.toml` checks all of it.

**The wire** (`Wire*.dfy`). Two SCLOrkWire ends over a network that keeps every packet ever sent and
may deliver any of them any number of times, in any order, or never. Each OSC handler is one atomic
step. `WireEnd` says what a handler does to the state of an end as a value, `Wire` is the class, and
every one of its methods is proved to do what `WireEnd` says. `WireHandshake` proves that connected
ends know each other. `WireSession` proves exactly-once, in-order delivery, and what the two buffers
hold, from two new ends on, through the handshake and all that follows: as long as no end has more
than a window of un-acked messages, and no Accept or Confirm resets an end that has sent or received
something. `WireDelivery` proves that the second condition is exact: after any reset, every
continuation of the session delivers in order if and only if the end was unused. `WireProgress` proves
that things get on: retry jobs alone get every message delivered and acked, whatever the network has
lost, and ends that may connect or hang up can. `WireLimits` holds
the runs: with one message more than a window of `bufferSize + 1` un-acked messages a later message is
handed out in the place of an earlier one, a second Accept makes a message get lost that was reported
as acked, and a Confirm that is overtaken by the first message, with nothing repeated, makes the second
message wait while its sender is idle; all three for every buffer size.

**The chat** (`Chat*.dfy`). The server queues changes and messages in a ring of 128 slots;
`ChatService` is the same server with a log that forgets nothing, and `ChatServer` is proved to be
that server. The names it holds are at any time the replay of its log. `ChatHistory` tells its state from
the requests alone: what was said, who goes by which name, who polled when and is still there.
`ChatHearing` says what a client shows and announces. `ChatReplica` joins a client
to it by first-in-first-out channels, among any number of other clients, and proves that the client
comes to hold the server's names, although its polls overlap and whenever it joins: a run skips nothing
if and only if no answer leaves out a message past those that the client has seen, that its snapshot
covers, or that are under way to it. It proves what a skip does to any client, and until when, and that
for every limit of an answer one message more than that makes a client lack a name.

**Preset files** (`Regex`, `Lexer*`, `Tokens`, `Pbindef*`, `PDVoice`, `PDPreset`). The tokenizer's patterns as
data, with a backtracking matcher proved to find exactly the members of each pattern's language, and
`LexerRules` says in plain words what each pattern matches. The
tokens tile the file. The parser's state machine accepts exactly the sentences of a grammar, and what it
records of a sentence are exactly its pairs of name and value, as balanced, disjoint slices of the token
list, its name, and the clock and quantization of its chains. `PDVoice` and `PDPreset` are the classes; their token objects are shared between a voice and its
parameters and edited in place. However often parameters of a loaded file are edited, every voice reads
as its tokens do; after one edit that is its piece of the file with one token's text replaced.

**The emoji index** (`Emoji*.dfy`). Building a trie of words with counts, and compressing it. The
compressed trie leads to the same matches, and branches at every node that has no match of its own.

**The shared clock** (`Clock*.dfy`). Clock states are lines between beats and seconds, in exact
arithmetic. Grooming the queue of changes composes; a chain of tempo changes gives a continuous and
strictly increasing timeline, and the server plays it whenever the changes arrive and whatever else is
asked of it. `ClockSync` is the
sliding window that estimates the server's time.

**The asset database's lists** (`Bytes`, `ListPages`, `ListWalk`, `AssetDatabase`). The store as an ordered set
of byte strings. Reading a list page by page gives all of it, for pages of every size, exactly when
no two of its entries carry the same token.

**The file cache** (`CacheEviction`, `CacheManager`, `CacheRuns`). The recorded size is always the real
one, eviction terminates although accesses made the queue stale, what it leaves is a tail of the queue,
and over all runs of hits, downloads and evictions a file's write time is that of its last use, and it is
proved when eviction follows the documented order.

## Where code and documentation disagree

- The cache is documented as evicting the least recently used file (src/confab/CacheManager.hpp:19,
  77-80). Its queue is a `std::priority_queue` of pairs, whose top is the greatest one. The model follows
  the code; `CacheEviction.EvictsFront` proves that files go by the times at which they were queued, the
  latest first, whatever their write times have become since, and `CacheEviction.EvictionOrder` says
  exactly when that is the documented order.
- `CacheManager::download` is documented as making room first (src/confab/CacheManager.hpp:48). The code
  does not, so the cache can be larger than its maximum after a download.
- A list token is a time stamp meant to sort in the order of time (src/confab/AssetDatabase.cpp:37-42).
  It is copied into the key as it lies in memory, so on a little-endian machine keys do not sort by
  time. Everything here is stated in the order of the keys.
- The comment at classes/SCLOrkWire.sc:177 allows for overwritten send slots. With at most `bufferSize`
  un-acked messages there are none, which `WireSession.SendBufferIsUnacked` proves.
- The chat server never frees message number 0, and no poll with a non-negative number asks for it.

## Assumptions

- Time is a number that a call reads once. Serials, sizes and beats do not overflow or round.
- `trunc` goes towards zero (classes/SCLOrkClockState.sc:57). How SuperCollider rounds bars before bar 0
  is not part of this model; for the others both readings agree.
- Several entries of SuperCollider's priority queue for one beat come out in the order in which they
  were put in.
- The chat server's largest answer is no longer than its ring, and a poll's message number is at
  least 0 (after shortening: at least -1), so that no slot outside the ring is read.
- Files in the cache directory have distinct stems, a download follows a miss, and over a run the clock
  does not go backwards. The source makes room only after its scan, and for nothing to be added; the runs
  of `CacheRuns` may do so at any time and for any amount.
- `kBeginList` and `kEndList` are the least and the greatest token, byte by byte.
- The words of the emoji descriptions do not all begin with one character; otherwise the script
  appends to a label that does not exist.

## Model

| member | source | states |
|---|---|---|
| Wire.SCLOrkWire.constructor | classes/SCLOrkWire.sc:88-125 | a new end: never connected, serials 0, both buffers empty |
| Wire.SCLOrkWire.ChangeConnectionState | classes/SCLOrkWire.sc:420-439 | becoming connected resets serials and buffers every time, and nothing else does |
| Wire.SCLOrkWire.NewSendRetry | classes/SCLOrkWire.sc:464-494 | a retry job sends its message at once and is scheduled with no retries used |
| Wire.SCLOrkWire.RetryFunction | classes/SCLOrkWire.sc:471-491 | a due job sends again while its condition holds and retries are left, ends silently, or fails the connection |
| Wire.SCLOrkWire.Connect | classes/SCLOrkWire.sc:157-175 | a request is sent only by an end that is not connected or connecting |
| Wire.SCLOrkWire.SendMsg | classes/SCLOrkWire.sc:179-200 | a connected end sends under the next serial and keeps the job in that serial's slot; others drop the message |
| Wire.SCLOrkWire.IsIdle | classes/SCLOrkWire.sc:203-225 | idle exactly when everything sent is acked and no reorder slot is filled, in one of two states |
| Wire.SCLOrkWire.HangUp | classes/SCLOrkWire.sc:227-242 | a connected end asks to disconnect |
| Wire.SCLOrkWire.OnConnectRequest | classes/SCLOrkWire.sc:260-291 | the first request makes an end the responder; duplicates change nothing |
| Wire.SCLOrkWire.OnConnectAccept | classes/SCLOrkWire.sc:293-310 | an accept for this end connects it under the given identifier and is confirmed |
| Wire.SCLOrkWire.OnConnectConfirm | classes/SCLOrkWire.sc:312-323 | a confirm for this end connects it |
| Wire.SCLOrkWire.OnSend | classes/SCLOrkWire.sc:325-372 | the whole receiving handler, its drain loop included, does what the value model says, and terminates |
| Wire.SCLOrkWire.OnAck | classes/SCLOrkWire.sc:374-392 | only the next ack in order counts; it frees its slot |
| Wire.SCLOrkWire.OnDisconnect | classes/SCLOrkWire.sc:394-405 | the other end's wish to disconnect is confirmed and followed |
| Wire.SCLOrkWire.OnDisconnectConfirm | classes/SCLOrkWire.sc:407-418 | the confirmation ends the connection |
| WireEnd.DrainFrame | classes/SCLOrkWire.sc:349-357 | draining touches the receiving side only |
| WireEnd.ReceiveFrame | classes/SCLOrkWire.sc:331-364 | receiving touches the receiving side only |
| WireHandshake.StepInv | classes/SCLOrkWire.sc:157-175 | every step of either end and every delivery keeps the handshake's invariant |
| WireHandshake.RunInv | classes/SCLOrkWire.sc:260-323 | the invariant holds over every run |
| WireHandshake.ConfirmMeansConnected | classes/SCLOrkWire.sc:299-305 | a confirm in the network means that its sender has been connected |
| WireHandshake.ConnectedEndsAgree | classes/SCLOrkWire.sc:260-323 | once either end has been connected, each knows the other's identifier, for the rest of the run |
| WireHandshake.ResponderConnectsSecond | classes/SCLOrkWire.sc:293-323 | an end that did not ask is connected only after the other one has been |
| WireSession.DrainDelivers | classes/SCLOrkWire.sc:349-357 | draining hands out exactly the run of waiting messages that follows, in order |
| WireSession.ReceiveDelivers | classes/SCLOrkWire.sc:333-363 | a packet of the session keeps: what was handed out is a prefix of what was sent |
| WireSession.SessionRunInv | classes/SCLOrkWire.sc:179-200 | sending, acking, losing, repeating, reordering and connecting keep the session's invariant |
| WireSession.SentIsSubmitted | classes/SCLOrkWire.sc:179-191 | serial k carries the k-th payload given to sendMsg while connected |
| WireSession.ExactlyOnceInOrder | classes/SCLOrkWire.sc:325-372 | in every state that a session reaches from ends that have sent and received nothing, the payloads handed out are those submitted under serials 1 to receiveSerial, and sendAckSerial <= receiveSerial <= sendSerial |
| WireSession.NewEndsDeliver | classes/SCLOrkWire.sc:88-125 | the same from two new ends and an empty network, through the handshake, when no reset hits an end in use |
| WireSession.AckedMeansDelivered | classes/SCLOrkWire.sc:374-392 | when all serials are acked all was delivered and no slot waits |
| WireSession.IdleMeansDelivered | classes/SCLOrkWire.sc:202-225 | an idle end's messages were all handed out by the other end |
| WireSession.SerialInSlot | classes/SCLOrkWire.sc:349-361 | exactly one serial of the reorder window has a slot's residue |
| WireSession.WaitingIsAhead | classes/SCLOrkWire.sc:358-362 | a filled reorder slot holds the payload of the one serial in receiveSerial+2..receiveSerial+bufferSize with its residue |
| WireSession.SendBufferIsUnacked | classes/SCLOrkWire.sc:177-200 | with at most bufferSize un-acked messages the filled send slots are exactly the un-acked ones |
| WireDelivery.SessionDelivers | classes/SCLOrkWire.sc:325-392 | from every state with the session's invariant, all continuations of the session deliver in order |
| WireDelivery.ResetHarmlessIff | classes/SCLOrkWire.sc:420-434 | after an accept or confirm has reset an end, all continuations deliver in order, none ahead of what was sent or behind what was acked, if and only if that end had sent and received nothing |
| WireProgress.DueJob | classes/SCLOrkWire.sc:471-491 | a due job with retries left puts out its message and stays with one retry more while its condition holds, and otherwise puts out nothing and is gone; without retries left the connection fails |
| WireProgress.JobsRun | classes/SCLOrkWire.sc:179-200 | in every run a connected end has, for every un-acked message, a job that carries it until it is acked |
| WireProgress.ResendingDelivers | classes/SCLOrkWire.sc:464-494 | from every state of a session, delivering only what is put out from then on, the retry jobs of an end get all that it sent handed out and acked, if they have retries left |
| WireProgress.Connecting | classes/SCLOrkWire.sc:260-323 | from the states in which the ends may ask and answer, whatever came before, request, accept and confirm lead to two fresh, connected ends |
| WireProgress.AsksIff | classes/SCLOrkWire.sc:157-175 | a request is put out in three states, and in the others nothing happens |
| WireProgress.AnswersIff | classes/SCLOrkWire.sc:260-291 | a request is answered in three states, and in the others nothing happens |
| WireProgress.SendsIfConnected | classes/SCLOrkWire.sc:179-200 | a message is put out under the next serial by a connected end, and otherwise nothing happens |
| WireProgress.NotAddressed | classes/SCLOrkWire.sc:293-418 | a message for another identifier does nothing |
| WireProgress.HangingUp | classes/SCLOrkWire.sc:227-242 | a connected end that hangs up gets both ends disconnected, with serials and buffers as they were |
| WireProgress.OnlyByHangingUp | classes/SCLOrkWire.sc:394-418 | without an end that is told to hang up none is ever disconnected |
| WireProgress.IdleIff | classes/SCLOrkWire.sc:202-225 | in a session an end is idle exactly when it is connected or has hung up, all that it sent is acked, and all that it acked was handed out |
| WireLimits.OverrunMisorders | classes/SCLOrkWire.sc:177-178 | for every buffer size there is a run from two new ends with bufferSize+2 un-acked messages that hands out a wrong message |
| WireLimits.SecondAcceptLosesMessage | classes/SCLOrkWire.sc:293-305 | for every buffer size a duplicate accept, after the first exchange, loses a message although the sender ends up idle |
| WireLimits.OvertakenConfirmLosesMessage | classes/SCLOrkWire.sc:312-323 | with every packet delivered at most once, a confirm that comes after the first message and its ack leaves the second one acked and waiting, and nothing is handed out from then on unless a copy of the first one comes or the initiator is reset |
| WireLimits.StuckForGood | classes/SCLOrkWire.sc:333-363 | that state is kept by every action but those two |
| ChatServer.Server.constructor | src/confab/ChatServer.cpp:11-19 | a new server is the starting state of the one with the log |
| ChatServer.Server.QueueMessage | src/confab/ChatServer.cpp:250-258 | the ring refines the log: the slot of the next serial is replaced, and freed first when it was used |
| ChatServer.Server.SendMessages | src/confab/ChatServer.cpp:131-142 | the replies read from the ring are those of the log |
| ChatServer.Server.SweepStale | src/confab/ChatServer.cpp:147-170 | the erase-while-iterating loop, in whatever order it visits |
| ChatServer.Server.AnswerPoll | src/confab/ChatServer.cpp:123-172 | a poll is answered before its time is noted and the stale clients are timed out |
| ChatServer.Server.HandleMessage | src/confab/ChatServer.cpp:73-248 | every command with every kind of arguments does what the server with the log does, replies included |
| ChatService.HandleInv | src/confab/ChatServer.cpp:81-247 | each command keeps names, serials and freed messages in step with the log |
| ChatService.LogExplainsState | src/confab/ChatServer.cpp:85-241 | over every run the map of names is the replay of the queued changes, and each entry carries its serial |
| ChatService.FreedOnceAndOld | src/confab/ChatServer.cpp:250-258 | after S messages exactly those numbered 1 to S-129 were freed, once each and in order, and none if there are fewer |
| ChatService.PollReply | src/confab/ChatServer.cpp:131-142 | a reply is consecutive messages up to the newest, where it starts, how long it may be, and that the ring still holds them |
| ChatService.SweepRemovesStale | src/confab/ChatServer.cpp:147-170 | the sweep removes exactly the stale clients, from the times and the names, in any order of visiting |
| ChatService.SweepQueuesTimeouts | src/confab/ChatServer.cpp:147-170 | it appends exactly one timeout to the log, under the old name, for each stale client that was signed in, as it visits them |
| ChatService.StaleUserIff | src/confab/ChatServer.cpp:147-170 | those are exactly the stale clients that were signed in |
| ChatService.StaleUsersOnce | src/confab/ChatServer.cpp:147-170 | each of them once |
| ChatHistory.ChatsAreSaid | src/confab/ChatServer.cpp:174-198 | over every run the chat messages of the log are those of the requests, with their arguments, in their order |
| ChatHistory.NameAfter | src/confab/ChatServer.cpp:81-247 | only a sign-in or change of name gives a user a name, the one it says; only a sign-out and a poll that finds the user silent take it away; nobody else's changes |
| ChatHistory.NameIsLastGiven | src/confab/ChatServer.cpp:81-241 | over every run whoever is signed in goes by the last name that was given |
| ChatHistory.SignInNumbers | src/confab/ChatServer.cpp:81-103 | users are numbered as they sign in, and only they are told a number |
| ChatHistory.ChangeQueues | src/confab/ChatServer.cpp:81-247 | a sign-in, a change of name, a sign-out and a chat message queue one message each, of their kind, with what they say |
| ChatHistory.PollQueues | src/confab/ChatServer.cpp:123-172 | a poll queues one timeout each for users that were silent for too long |
| ChatHistory.OthersQueueNothing | src/confab/ChatServer.cpp:81-248 | all else queues nothing |
| ChatHistory.HeardAfter | src/confab/ChatServer.cpp:144-170 | a poll notes its time, and drops the times that are too old; nothing else touches them |
| ChatHistory.NotedIsLastPoll | src/confab/ChatServer.cpp:144-146 | over every run the time noted of a user is that of the last poll |
| ChatHistory.ActiveStays | src/confab/ChatServer.cpp:147-170 | a user who is not found silent and does not sign out stays signed in |
| ChatLog.LastChangeDecides | classes/SCLOrkChatClient.sc:68-97 | what a log says about a name does not depend on where replay began |
| ChatLog.UntouchedStays | classes/SCLOrkChatClient.sc:68-97 | a name no change mentions stays as it is |
| ChatLog.ReplayConcat | classes/SCLOrkChatClient.sc:62-97 | replaying two logs in turn is replaying one |
| ChatLog.SuffixAgain | classes/SCLOrkChatClient.sc:48-97 | replaying any suffix of the log over a map that includes it changes nothing |
| ChatLog.ReplaysAgreeIff | classes/SCLOrkChatClient.sc:62-97 | replaying one log over two maps gives the same names if and only if the log changes every name on which they differ |
| ChatClient.SCLOrkChatClient.constructor | classes/SCLOrkChatClient.sc:132-137 | no names, cursor 0 |
| ChatClient.SCLOrkChatClient.SignInCompleteFunc | classes/SCLOrkChatClient.sc:41-46 | the user's number is taken over |
| ChatClient.SCLOrkChatClient.SetAllClientsFunc | classes/SCLOrkChatClient.sc:48-57 | the snapshot replaces all names; the cursor stays |
| ChatClient.SCLOrkChatClient.ChangeClientFunc | classes/SCLOrkChatClient.sc:59-104 | only a serial past the cursor is applied, and what is announced |
| ChatClient.SCLOrkChatClient.ChatReceiveFunc | classes/SCLOrkChatClient.sc:106-130 | a chat message moves the cursor, whether or not it is for this client |
| ChatHearing.ShownIff | classes/SCLOrkChatClient.sc:106-130 | a chat message past the cursor is shown, as it is, exactly to its sender, to its recipients, and to all if it is for everyone |
| ChatHearing.AnnouncedIff | classes/SCLOrkChatClient.sc:59-104 | a change past the cursor is announced with the old name, except one's own sign-in and the leaving of an unknown user |
| ChatHearing.TakesShows | classes/SCLOrkChatClient.sc:106-130 | of the messages it takes a client is shown exactly those that are for its user, once each and in order |
| ChatHearing.HeardAsSaid | classes/SCLOrkChatClient.sc:106-130 | a chat message that a client takes has the very arguments of the request that was its m-th, m being the number of chat messages before it in the log |
| ChatReplica.StepInv | src/confab/ChatServer.cpp:110-142 | every step of the server, the client and the others keeps the replica's invariant |
| ChatReplica.RunInv | classes/SCLOrkChatClient.sc:48-130 | the invariant holds over every run in which no answer skips a needed serial |
| ChatReplica.ReplicaConverges | classes/SCLOrkChatClient.sc:48-129 | with message k at or past the snapshot taken, the client's names are the server's after its first k+1 messages, despite overlapping polls |
| ChatReplica.WholeRunNeverSkips | src/confab/ChatServer.cpp:131-142 | a run skips nothing past the cursor and the snapshot, and leaves nothing under way that will, if and only if no answer leaves out something that the client will lack when it takes it |
| ChatReplica.AnswerSkipsIff | src/confab/ChatServer.cpp:131-142 | an answer starts past the message after the last one that the client has or will have, if and only if the client lacks more messages than an answer may hold |
| ChatReplica.EnoughIsWhole | src/confab/ChatServer.cpp:131-142 | for that it is enough to count from the poll's number or the snapshot, whichever is later |
| ChatReplica.WholeRunConverges | src/confab/ChatServer.cpp:131-142 | if no answer leaves out something that the client will lack, its names are, from its snapshot on, the server's after the messages it has taken |
| ChatReplica.InStepAfterSkipIff | classes/SCLOrkChatClient.sc:59-130 | any client that skips messages and then takes some is in step if and only if those change every name in which it differed from the replay of all messages before them |
| ChatReplica.TakesAfterSkipIff | classes/SCLOrkChatClient.sc:59-130 | after one message, if and only if it differed in no name but the one that message changes |
| ChatReplica.SkippingDiverges | src/confab/ChatServer.cpp:131-136 | for every limit from 1 to 128 a run in which a client asks for one message more than that, takes all it is sent up to the newest, and lacks a name |
| Regex.FindAt | classes/SCLOrkPDPreset.sc:82-185 | a match found lies inside the string |
| Regex.TriesExact | classes/SCLOrkPDPreset.sc:82-185 | backtracking reaches exactly the ends of the matches in the pattern's language |
| Regex.FindAtExact | classes/SCLOrkPDPreset.sc:82-185 | what is found is in the language, and nothing found means that nothing matches there |
| Regex.AltPrefersLeft | classes/SCLOrkPDPreset.sc:82-185 | the left alternative is found if it matches at all |
| Regex.CatPrefersFirst | classes/SCLOrkPDPreset.sc:82-185 | of two parts the first one's earliest end counts from which the second one matches |
| Regex.StarGoesOn | classes/SCLOrkPDPreset.sc:82-185 | a repetition goes on where its body's first try leads |
| Regex.StarStops | classes/SCLOrkPDPreset.sc:82-185 | and stops where its body does not match |
| Regex.ManyIsRun | classes/SCLOrkPDPreset.sc:82-185 | of the matches of a repeated character class the engine finds the longest run |
| Lexer.RulesConsume | classes/SCLOrkPDPreset.sc:80-185 | none of the tokenizer's patterns matches the empty string |
| Lexer.TokenAtExact | classes/SCLOrkPDPreset.sc:80-199 | a token is the match that the engine finds for its pattern, which is in its language, where no earlier pattern matches |
| LexerRules.RuleIs | classes/SCLOrkPDPreset.sc:80-185 | each of the 26 patterns matches exactly the pieces of text that are spelled as it says |
| LexerRules.TokensAreSpelled | classes/SCLOrkPDPreset.sc:80-199 | every token is spelled as its kind is, and no earlier pattern matches where it begins |
| Lexer.TokensTileInput | classes/SCLOrkPDPreset.sc:71-207 | the tokens tile the input from 0 on, and put together are the input |
| Lexer.StuckWhereUnmatched | classes/SCLOrkPDPreset.sc:187-190 | tokenizing fails only at a place where no pattern matches |
| Pbindef.RunIsMoveAll | classes/SCLOrkPDVoice.sc:53-57 | whitespace and comments do not move the machine |
| PbindefGrammar.TreeAccepted | classes/SCLOrkPDVoice.sc:58-280 | every sentence of the grammar is accepted |
| PbindefGrammar.ReadTree | classes/SCLOrkPDVoice.sc:58-280 | an accepted list is the flattening of a tree, which is found |
| PbindefGrammar.AcceptsExactlyTrees | classes/SCLOrkPDVoice.sc:30-292 | the state machine is sound and complete for the grammar |
| PbindefParameters.RecordsAreSlices | classes/SCLOrkPDVoice.sc:119-183 | recorded values are contiguous, balanced slices with no comma outside brackets, disjoint, in order, numbered 0, 1, 2, ..., each after its own name |
| PbindefRecords.RecordsArePairs | classes/SCLOrkPDVoice.sc:119-183 | what is recorded of a sentence are exactly its pairs, in their order: each under its name, with a slice that is its value once whitespace and comments are removed |
| PbindefHeader.HeaderIsRead | classes/SCLOrkPDVoice.sc:77-274 | of a sentence the name is kept, the clock and quantization of its last .play and the number of its last .quant, and where there is none what was kept before |
| PDVoice.SCLOrkPDVoice.NewFromTokens | classes/SCLOrkPDVoice.sc:11-15 | a voice exactly for a sentence of the grammar, whose parameters are the sentence's pairs |
| PDVoice.SCLOrkPDVoice.RebuildString | classes/SCLOrkPDVoice.sc:22-27 | the string is the current strings of the tokens put together |
| PDVoice.SCLOrkPDVoice.Switch | classes/SCLOrkPDVoice.sc:58-280 | each state's branches are the machine's moves |
| PDVoice.SCLOrkPDVoice.SideEffects | classes/SCLOrkPDVoice.sc:77-274 | what the branches record |
| PDVoice.SCLOrkPDVoice.TakeToken | classes/SCLOrkPDVoice.sc:53-287 | one round of the loop is one step of the machine |
| PDVoice.SCLOrkPDVoice.SetFromTokens | classes/SCLOrkPDVoice.sc:30-292 | true exactly for sentences; the fields afterwards are the sentence's name, clock and quantizations; parameters share the token objects of their slices, in the order of their numbers, and are the pairs of the sentence |
| PDVoice.SCLOrkPDVoice.EditValue | scide_scqt/SCLOrkPDParameterView.sc:53-56 | an edit changes the string of exactly one of the voice's tokens |
| PDVoice.SCLOrkPDVoice.EditAndRebuild | scide_scqt/SCLOrkPD.sc:234-238 | after an edit the string is the old one with only that piece replaced |
| PDVoice.PieceReplaced | classes/SCLOrkPDVoice.sc:22-27 | tokens put together, before and after one of them gets another string |
| PDVoice.RecordsInOrder | classes/SCLOrkPDVoice.sc:161-176 | the dictionary keeps the later of two parameters of one name; order numbers tell the order of disjoint slices |
| PDVoice.ParamsArePairs | classes/SCLOrkPDVoice.sc:161-176 | the dictionary holds exactly the names of the sentence, each with the value and the number of its last pair |
| PDPreset.SCLOrkPDPreset.Tokenize | classes/SCLOrkPDPreset.sc:71-207 | the loop makes fresh, distinct token objects of exactly the lexer's tokens, and terminates on every input |
| PDPreset.SCLOrkPDPreset.Voices | classes/SCLOrkPDPreset.sc:18-62 | one voice for each piece from a Pbindef to its first semicolon; nothing if one is unreadable or not terminated |
| PDPreset.SCLOrkPDPreset.NewFromFile | classes/SCLOrkPDPreset.sc:6-69 | a preset exactly when the file tokenizes and all its pieces are sentences; each voice's string is its piece of the file, and the token objects read as the file's tokens |
| PDPreset.SCLOrkPDPreset.ChangeParameter | scide_scqt/SCLOrkPD.sc:234-238 | an edit changes what one token of that voice reads; its string and those of all other voices are what their tokens read, and after the first edit its string is its piece of the file with that token's text replaced |
| PDPreset.EditedVoice | scide_scqt/SCLOrkPD.sc:234-238 | a voice of a loaded file with one token changed reads as its piece of the file, with only that token's text replaced |
| PDPreset.CutsAgree | classes/SCLOrkPDPreset.sc:18-42 | there is only one way to cut a list |
| PDPreset.Unterminated | classes/SCLOrkPDPreset.sc:58-62 | a list with a Pbindef that no semicolon ends cannot be cut into sentences |
| PDPreset.Unreadable | classes/SCLOrkPDPreset.sc:24-31 | nor can one with a piece that is no sentence |
| PDPreset.PieceOfText | classes/SCLOrkPDPreset.sc:191-199 | consecutive tokens put together are the piece of the file that they cover |
| EmojiTrie.PairsAre | scripts/build_emoji_trie.scd:61-74 | which pairs of path and emoji the index has to hold |
| EmojiTrie.AlphanumericOne | scripts/build_emoji_trie.scd:65-70 | of one character a path has that character if it is a letter or a digit, and nothing otherwise |
| EmojiTrie.AlphanumericConcat | scripts/build_emoji_trie.scd:64-70 | of a word put together it has what it has of its parts, in order |
| EmojiTrie.SplitJoins | scripts/build_emoji_trie.scd:63 | splitting loses nothing, and no word contains the separator |
| EmojiTrie.EmojiTrie.CountUp | scripts/build_emoji_trie.scd:80-92 | the path-shrinking loop adds one to every prefix and to the root, and to nothing else |
| EmojiTrie.EmojiTrie.AddPath | scripts/build_emoji_trie.scd:72-94 | a pair that is there already is not counted again |
| EmojiTrie.EmojiTrie.AddWord | scripts/build_emoji_trie.scd:63-94 | a word is entered under its alphanumeric characters, if it has any |
| EmojiTrie.EmojiTrie.Build | scripts/build_emoji_trie.scd:57-97 | every node counts the distinct pairs that pass through it or end at it, there are no other nodes, and the matches are the pairs |
| EmojiPruning.BuiltIsWellFormed | scripts/build_emoji_trie.scd:107-108 | what is built has the shape that pruning relies on |
| EmojiPruning.FlattenLabel | scripts/build_emoji_trie.scd:128-136 | the labels on the way to a node put together are its characters |
| EmojiPruning.NotKept | scripts/build_emoji_trie.scd:101-105 | a node that is not copied has one subnode, unless it is an empty root |
| EmojiPruning.FinalTrie.PruneTrie | scripts/build_emoji_trie.scd:100-141 | the recursion copies exactly the nodes with a choice or a match, under their labels, in any order of keys, and terminates |
| EmojiPruning.FinalTrie.CopyAll | scripts/build_emoji_trie.scd:112-127 | a copied node with everything below it |
| EmojiPruning.FinalTrie.GoOn | scripts/build_emoji_trie.scd:128-139 | a passed-over node's subnode continues the last label |
| EmojiLookups.LookupsKept | scripts/build_emoji_trie.scd:100-141 | joined labels lead to exactly the words of the uncompressed trie, with the same matches, by one way each |
| EmojiLookups.CountsKept | scripts/build_emoji_trie.scd:116-118 | copied nodes keep their counts |
| EmojiLookups.Segment | scripts/build_emoji_trie.scd:132-136 | each label runs from one copied node to the next |
| EmojiLookups.SiblingsDiffer | scripts/build_emoji_trie.scd:112-119 | different labels that leave one node start with different characters |
| EmojiLookups.NodesAreKeys | scripts/build_emoji_trie.scd:117 | every node of the final trie but the root was copied |
| EmojiLookups.NodesBranch | scripts/build_emoji_trie.scd:101-105 | a node without a match has two ways on that start differently |
| EmojiLookups.MakeIndex | scripts/build_emoji_trie.scd:169-170 | building and pruning together |
| ClockState.RoundTrips | classes/SCLOrkClockState.sc:64-72 | beats and seconds are mutual inverses |
| ClockState.RunsAtTempo | classes/SCLOrkClockState.sc:69-72 | a state begins at its beat and time, and goes on at its tempo |
| ClockState.LocalTime | classes/SCLOrkClockState.sc:64-72 | a local clock that is ahead reads later by as much for the same beat |
| ClockState.BarsRoundTrip | classes/SCLOrkClockState.sc:56-62 | whole bars come back from beats |
| ClockState.BarsHaveBeats | classes/SCLOrkClockState.sc:56-62 | bars count from the base bar at its beat, and each has the beats of a bar |
| ClockState.BarOfBeat | classes/SCLOrkClockState.sc:56-62 | a beat is in the bar that has begun, counted towards zero before bar 0 |
| ClockState.ChangeIsContinuous | classes/SCLOrkClockState.sc:74-84 | old and new state agree at the change, on beat and time, and on where bars are |
| ClockState.ReachedWhenTime | classes/SCLOrkClockServer.sc:127-129 | with a positive tempo a beat is reached exactly when its time has come |
| ClockGrooming.InsertOrdered | classes/SCLOrkClockServer.sc:87-88 | the queue stays ordered by beat |
| ClockGrooming.InsertKeeps | classes/SCLOrkClockServer.sc:87-88 | queueing loses nothing |
| ClockGrooming.InsertPlace | classes/SCLOrkClockServer.sc:87-88 | a queued change comes after those of its beat and before later ones; the others keep their order |
| ClockGrooming.GroomInv | classes/SCLOrkClockServer.sc:123-133 | after grooming every queued beat is later than the current beat and none is before the current state's |
| ClockGrooming.GroomDropsFront | classes/SCLOrkClockServer.sc:123-133 | grooming makes one of the states current and keeps those behind it |
| ClockGrooming.ChangeInv | classes/SCLOrkClockServer.sc:83-91 | a change, replacing or queued, keeps the order and leaves nothing due |
| ClockGrooming.ChangeTakes | classes/SCLOrkClockServer.sc:83-91 | a change for a beat not past the current state's replaces that state, any other is queued, and nothing but what became due before is lost |
| ClockGrooming.GroomComposes | classes/SCLOrkClockServer.sc:123-133 | grooming now and later is grooming later |
| ClockGrooming.ComposesIff | classes/SCLOrkClockServer.sc:123-133 | when nothing queued runs backwards, that holds exactly when the current state does not either, or nothing is queued |
| ClockGrooming.GroomThenQueue | classes/SCLOrkClockServer.sc:83-91 | a change that comes after a groom might as well have come before it |
| ClockTimeline.CurrentByTime | classes/SCLOrkClockServer.sc:123-133 | the state groomed at t is the one with applyAtTime <= t < the next one's |
| ClockTimeline.BeatsAdvance | classes/SCLOrkClockState.sc:64-84 | across all changes beats advance no slower than the slowest and no faster than the fastest tempo |
| ClockTimeline.StrictlyIncreasing | classes/SCLOrkClockState.sc:69-72 | later is further |
| ClockTimeline.Continuous | classes/SCLOrkClockState.sc:64-84 | the timeline is uniformly continuous |
| ClockTimeline.ServerPlaysTimeline | classes/SCLOrkClockServer.sc:74-91 | the server's beat is the timeline's, at whatever times the changes arrived |
| ClockServer.CohortState.GroomState | classes/SCLOrkClockServer.sc:123-133 | the popping loop grooms |
| ClockServer.CohortState.ChangeState | classes/SCLOrkClockServer.sc:83-91 | replace or queue, then groom |
| ClockServer.CohortState.SendState | classes/SCLOrkClockServer.sc:135-146 | the current state is sent first, and then each queued one once, in whatever order the heap has them |
| ClockServer.SCLOrkClockServer.OnClockGetAll | classes/SCLOrkClockServer.sc:47-52 | every cohort is groomed and sent |
| ClockServer.SCLOrkClockServer.OnClockCreate | classes/SCLOrkClockServer.sc:53-73 | a new cohort, told to all, or the existing one groomed and sent |
| ClockServer.SCLOrkClockServer.OnClockChange | classes/SCLOrkClockServer.sc:74-96 | a change to a known cohort is told to all; one to an unknown cohort does nothing |
| ClockServer.HandleInv | classes/SCLOrkClockServer.sc:45-98 | each message keeps every cohort in order, grooms those it touches and leaves the others alone |
| ClockServer.ReachableInv | classes/SCLOrkClockServer.sc:45-98 | in every reachable state all queued beats are at or after the current state's |
| ClockRuns.AskedKeepsRunning | classes/SCLOrkClockServer.sc:47-73 | asking for a clock, or creating one that exists with whatever state, leaves one of its states current with those behind it queued |
| ClockRuns.AskedChangesNothing | classes/SCLOrkClockServer.sc:47-73 | with nothing running backwards it is later where it would be without that |
| ClockRuns.CreatedAsAsked | classes/SCLOrkClockServer.sc:53-65 | a new clock has the state it is created with, and nothing queued |
| ClockRuns.ChangedAsAsked | classes/SCLOrkClockServer.sc:74-96 | a change does to a known clock what changes do, and nothing to an unknown one |
| ClockRuns.OthersUntouched | classes/SCLOrkClockServer.sc:45-98 | clocks of other names are neither made nor changed |
| ClockRuns.ServerPlaysOn | classes/SCLOrkClockServer.sc:45-98 | over every run of requests a clock is where its timeline of changes is, whatever else is asked, created or changed in between |
| ClockSync.Sync.constructor | classes/SCLOrkClock.sc:25-35 | no samples, difference 0 |
| ClockSync.Sync.SendRequest | classes/SCLOrkClock.sc:66-76 | a request changes only the time from which round trips are counted |
| ClockSync.Sync.OnSyncSet | classes/SCLOrkClock.sc:37-58 | the difference is the mean offset less half the mean round trip of the latest 60 samples, or of all if there are fewer |
| ClockSync.SumsSlide | classes/SCLOrkClock.sc:44-56 | the running sums are the sums of the window |
| ClockSync.EstimateIsMean | classes/SCLOrkClock.sc:57 | the estimate is the mean over all samples of the window, each counting with its difference less half its round trip |
| ClockSync.ExactWhenSymmetric | classes/SCLOrkClock.sc:57 | with equal delays both ways the estimate is exact |
| Bytes.LessOnce | src/confab/AssetDatabase.cpp:37-42 | the order of keys is total and strict |
| ListPages.EntryOrder | src/confab/AssetDatabase.cpp:257-270 | in a list the token decides the order, then the asset |
| ListPages.StoredIsListed | src/confab/AssetDatabase.cpp:330-347 | after storeList the list's keys are a stretch between its sentinels, with a key behind it |
| ListPages.SeekToken | src/confab/AssetDatabase.cpp:398-406 | seeking a token finds the first entry that has it |
| ListPages.PageIs | src/confab/AssetDatabase.cpp:388-432 | a page goes on behind that entry, as far as it may and the list does |
| ListWalk.PagesComplete | src/confab/AssetDatabase.cpp:388-432 | with distinct tokens pages of any sizes give the whole list in key order, none skipped or repeated, and end with the end pair |
| ListWalk.CompleteIffDistinct | src/confab/AssetDatabase.cpp:398-431 | that holds for all page sizes if and only if the tokens are distinct |
| ListWalk.WalkFromEnd | src/confab/AssetDatabase.cpp:388-396 | from the end of a list on a page is the end pair |
| AssetDatabase.InsertSorted | src/confab/AssetDatabase.cpp:318-349 | storing keeps the keys in order |
| AssetDatabase.AssetDatabase.StoreList | src/confab/AssetDatabase.cpp:318-357 | exactly the name, both sentinels and the list itself are added, or nothing |
| AssetDatabase.AssetDatabase.StoreAsset | src/confab/AssetDatabase.cpp:243-286 | exactly the name, the asset and an entry in each of its lists are added, or nothing |
| AssetDatabase.AssetDatabase.GetListNext | src/confab/AssetDatabase.cpp:388-432 | the buffer holds the page, the count is its length, and the rest of the buffer is untouched |
| CacheEviction.StepInv | src/confab/CacheManager.cpp:190-213 | one round keeps the books and shortens the queue or the list of stale entries |
| CacheEviction.Evict | src/confab/CacheManager.cpp:189-217 | eviction terminates with room for what is added, and the recorded size is the real one |
| CacheEviction.EvictOnlyEvicts | src/confab/CacheManager.cpp:198-212 | the files that go are those that leave the queue; the others are untouched |
| CacheEviction.NoMoreThanNeeded | src/confab/CacheManager.cpp:190-213 | with the last evicted file there would not have been room |
| CacheEviction.PushInHeapOrder | src/confab/CacheManager.cpp:176-213 | the queue keeps the order of times, and among equal times of keys |
| CacheEviction.EvictsFront | src/confab/CacheManager.cpp:189-217 | while write times only rise, eviction takes exactly the front of the queue, as far as it must, and leaves the rest as it is |
| CacheEviction.EvictionOrder | src/confab/CacheManager.cpp:194-203 | files go in the order of least recent use, by their real write times, if and only if none or all go, or none of those at the front that have to go was used later than one behind them |
| CacheManager.AddedInv | src/confab/CacheManager.cpp:176-184 | taking a file into the books keeps them right, adds that file with its size, time and extension, and leaves the others |
| CacheManager.TouchInv | src/confab/CacheManager.cpp:106-109 | an access sets the file's write time to its own and nothing else, which makes its entry stale and nothing wrong; with a later time the entry only lags behind |
| CacheManager.CacheManager.MakeRoomFor | src/confab/CacheManager.cpp:189-217 | never takes from an empty queue, terminates, and leaves room |
| CacheManager.CacheManager.CheckExistingEntries | src/confab/CacheManager.cpp:24-88 | after the scan, in any order, exactly the good files are on the books, with their times, and then room is made |
| CacheManager.CacheManager.CheckCache | src/confab/CacheManager.cpp:90-111 | a hit exactly for a file on the books, whose write time is then the time of the hit, with all else as it was |
| CacheManager.CacheManager.Download | src/confab/CacheManager.cpp:113-187 | a good download is on the books, a bad one leaves no file; nothing is evicted |
| CacheRuns.ReachableSound | src/confab/CacheManager.cpp:90-217 | over every run of hits, downloads and evictions the books are right and queued times only lag behind write times |
| CacheRuns.WriteTimeIsLastUse | src/confab/CacheManager.cpp:106-184 | over every run the write time of a file on the books is the time of its last hit or fetch, or what the scan found |
| CacheRuns.ReachableEvictionOrder | src/confab/CacheManager.cpp:189-217 | in every reachable cache what goes is the front of the queue, and exactly when that is the documented order of last uses |

## Left out

- Preemption of a wire's handlers while a callback runs between `signal` and `wait` of its semaphore; each handler is one step.
- `knock` and `bind`, which only lead up to `connect`; the onConnected callback; `prDropLine`; command-period rescheduling; when timers are due (a job may fire at any time).
- The addresses of the peers: a packet names the end that it is for.
- A chat client's reconnecting, its callbacks' display work, and the keep-alive log line of the server.
- `SCLOrkPDPreset`'s sample year and name, `voiceAt`, and the conversion of quantizations to integers, which stay strings.
- `verbose` reporting of the parser and its second parse, which has no effect on the result.
- Reading the emoji test file line by line, lower-casing, and writing the generated class.
- The client's clock: its queue is not proved to agree with the server's, since it drops changes that the server takes (classes/SCLOrkClock.sc:174-195).
- Serialization of clock states, floating-point rounding, and dividing by a tempo of zero.
- `wireMap`: whom an update for all is sent to.
- Values in the asset database, assets and their deprecation chains, chunks, and more than eight lists of one asset, for which the source's buffer has no room.
- ListWalk.CompleteIffDistinct: no entry but the sentinel carries the end token, because time stamps do not; a second one would end the walk early.
- AssetDatabase.AssetDatabase.GetListNext: when the iterator runs off the database the count is 0 and nothing is promised about the pairs already written.
- Hashing and the network transfer of a download; whether a file is intact is an input.
- Path strings: files are known by key and extension. (src/confab/CacheManager.cpp:100-101 joins a path without a separator where line 115 has one.)
- Locks: each call of the cache is one step.
- Views, MIDI, Jack and Wiimote classes, HTTP, OSC encoding, version comparison and string tables.
