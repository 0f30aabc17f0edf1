# Smart Group server: verified model

The program is a D-Star Smart Group server. Subscribers log in to a group by
transmitting to its callsign; whoever then talks first takes the group's floor,
and his voice frames are relayed to every repeater at which a subscriber was last
heard, and to a linked reflector. This project models its hard core in Dafny and
proves what the code promises, or exactly when it does.

| file | what it models |
|---|---|
| Timer.dfy | the 32-bit millisecond timer |
| Checksum.dfy | the table-driven 16-bit FCS of section C.2 of RFC 1662 |
| RadioHeader.dfy | the 41-byte radio header |
| SlowData.dfy | the slow-data encoder: tagged blocks, scrambling, interleaving |
| IrcCodec.dfy | the receiver and printer of the message format of section 2.3.1 of RFC 2812 |
| IrcLines.dfy | the receiver against the grammar, for every line |
| IrcLogin.dfy | the IRC login and keep-alive machine |
| IrcSession.dfy | whole IRC sessions: one message, a login that completes, PINGs, the nick |
| Caches.dfy | callsign order and the user caches a step looks things up in |
| Group.dfy | one Smart Group and its six steps, as functions on its state |
| GroupRuns.dfy | runs of a group: floor exclusivity, frozen fan-out, silence |
| GroupTiming.dfy | runs of a group: bounded release, record lifetime |
| GroupFanOut.dfy | who hears a stream, repeated headers, single remote drops |
| GroupFrames.dfy | what each event of a group sends, frame by frame |
| GroupSubscription.dfy | runs of a group: how long a subscription lasts |
| GroupWaits.dfy | runs of a group: records left to the clock, a quick return |
| GroupRecords.dfy | what each event does to records, subscribers and the link timer; how long a reflector stream is heard |
| GroupSilence.dfy | runs of a group: exactly when a G2 stream is forwarded |
| GroupObject.dfy | the group object, its loops proved against Group.dfy |
| Backoff.dfy | exponential backoff inside an inactivity window (DExtra and DCS) |
| Links.dfy | the DExtra handlers and the group's side of its link |
| LinkAgreement.dfy | runs of the links: agreement, reconnection, retry bound |
| LinkEvents.dfy | what each event does to one link and sends for it, and streams from a reflector to the repeaters |
| LinkObjects.dfy | the handler objects and their list, proved against Links.dfy |

State that the program changes in place is a class whose methods are proved
against a function on an immutable view of it; the theorems are about those
functions and about all runs of them. Reading user caches, a clock step's length,
the users a ping sweep gives up on, whether a protocol handler is free and calls
from DCS handlers are parameters of the events. What is sent is an entry in a
ghost trace.

Findings, where the code does not always do what one would expect of it; the model
keeps the code's behaviour, and the theorems named say when it appears:

- A record can outlive its deleted user when one clock step is longer than the
  user timeout less 7999 ms, or after a remote logoff of one user with two records
  (`GroupTiming.OutlivesIff`, `GroupFanOut.DropDanglesIff`).
- A remote logoff of the talker leaves the fan-out list of his stream in place for
  the next one (`GroupFanOut.CleanIff`).
- A talker hears himself when such a list names his repeater
  (`GroupFanOut.StaleListEchoes`), or when the two caches of a dual-stack server
  disagree about him, and at no other time (`GroupFanOut.EchoIff`).
- A stream that subscribed its user is silent exactly as long as its login record
  lasts (`GroupSilence.ForwardIff`, `GroupSilence.LoginLostIff`): a logoff under its id
  makes it audible (`GroupRuns.ReusedIdIsHeard`), and so do two four-second phases
  when somebody else had the floor (`GroupSilence.BlockedLoginHeard`).
- Logging everybody off during a reflector stream leaves the link timer running, and
  it cuts off a G2 stream that lasts beyond the two seconds
  (`GroupTiming.HeardKeepsFloorIff`, `GroupTiming.LinkTimerCuts`).
- A user who logs off and subscribes again within four seconds is dropped when the
  logoff record runs out (`GroupWaits.QuickReturnIff`).
- The recorded GPS size is too small for some strings: 51 characters lose one
  (`SlowData.GpsLosesACharacter`), and interleaving already loses one of 36
  (`SlowData.InterleavingLosesACharacter`).
- A DCS handler that a group has left can still change the status of that group's
  later DExtra link (`LinkAgreement.StepAgreesIff`, `LinkAgreement.LeftoverDisturbs`).
- A group can be left linking with no handler at work: the pool was empty, or a
  disconnect came while it was linking (`LinkAgreement.StepAttachedIff`).
- A DCS window in which the link is unlinked sees up to 11 packets, not 6
  (`Backoff.UnlinkedWindow`, `Backoff.UnlinkedWindowFull`).
- With nothing to interleave the buffer length wraps round to 44
  (`SlowData.CSlowDataEncoder.GetInterleavedDataLength`).
- A timeout of 4294968 s or more is truncated to 32 bits (`Timer.SecondsExactIff`).

Assumptions, all visible as preconditions: stream ids are not zero
(HeaderData.cpp:38-45); a G2 voice frame never names the null record that a
reflector stream leaves in the record map (GroupHandler.cpp:464-466); a clock step
does not overflow a running 4 s or 60 s timer; the user timeout in minutes fits the
32-bit millisecond timer.

## Model

| member | source | states |
|---|---|---|
| Timer.CountsTheSum | Timer.h:76-80 | however time is cut into steps, a running timer has counted their sum |
| Timer.ExpiresExactly | Timer.cpp:42-52 | a started timer has expired exactly when the clocked ticks reach the time asked for |
| Timer.SecondsExactIff | Timer.cpp:24-36 | on the millisecond clock, over all step sequences, that is so exactly when the timeout is not truncated |
| Timer.CTimer.constructor | Timer.cpp:24-36 | a new timer holds the timeout, truncated as the code does, and is stopped |
| Timer.CTimer.SetTimeout | Timer.cpp:42-52 | changes the timeout only, or stops the timer when it is zero |
| Timer.CTimer.Start | Timer.h:54-58 | counting starts at 1, if there is a timeout |
| Timer.CTimer.StartFor | Timer.h:47-52 | a new timeout, then a start |
| Timer.CTimer.Stop | Timer.h:60-63 | a stopped timer counts nothing |
| Timer.CTimer.Clock | Timer.h:76-80 | a running timer advances, wrapping at 32 bits |
| Timer.CTimer.HasExpired | Timer.h:65-74 | true exactly for a running timer at or past its timeout |
| Timer.CTimer.GetTimeout | Timer.cpp:54-60 | the whole units of the tick rate in the timeout, rounded down, without the extra tick |
| Checksum.TableIsDivision | CCITTChecksum.cpp:20-52 | every table entry is its index divided bit by bit by the reflected polynomial |
| Checksum.StepIsDivision | CCITTChecksum.cpp:64-75 | a table step is a byte of bitwise division, for every state and byte |
| Checksum.FcsConcat | CCITTChecksum.cpp:64-75 | piecewise updates equal one update on the concatenation |
| Checksum.Residue | CCITTChecksum.cpp:88-100 | running on through the appended bytes always leaves 0xF0B8 |
| Checksum.AcceptsIffResidue | CCITTChecksum.cpp:117-125 | the check passes exactly for messages that leave the residue |
| Checksum.BytePermutes | CCITTChecksum.cpp:64-75 | each byte step permutes the 16-bit state |
| Checksum.TwoBytesPermute | CCITTChecksum.cpp:64-75 | from one state distinct byte pairs lead to distinct states |
| Checksum.SuffixPermutes | CCITTChecksum.cpp:64-75 | a difference in the state survives any common suffix |
| Checksum.BurstDetected | CCITTChecksum.cpp:117-125 | any damage inside sixteen consecutive bits of a message of any length, checksum included, is rejected |
| Checksum.CCITTChecksum.Update | CCITTChecksum.cpp:64-75 | the table loop computes the bitwise-division checksum of everything read so far |
| Checksum.CCITTChecksum.Result | CCITTChecksum.cpp:88-100 | the two bytes are the complemented state, low byte first |
| Checksum.CCITTChecksum.Check | CCITTChecksum.cpp:117-125 | true exactly when the two bytes are those of the state |
| Checksum.CCITTChecksum.Reset | CCITTChecksum.cpp:141-144 | back to the initial state |
| RadioHeader.RoundTrip | HeaderData.cpp:526-574 | every encoded header passes the check and gives back every field, each at its place among the 41 bytes |
| RadioHeader.OnlyEncodingsAccepted | HeaderData.cpp:526-548 | a 41-byte message passes exactly when it is the encoding of the fields read from it |
| RadioHeader.DamageRejected | HeaderData.cpp:541-544 | a header damaged inside sixteen consecutive bits is rejected |
| RadioHeader.CHeaderData.SetData | HeaderData.cpp:526-548 | reads every field, and answers the checksum test when asked |
| RadioHeader.CHeaderData.GetData | HeaderData.cpp:550-574 | writes the body, with its checksum when asked, and nothing beyond |
| SlowData.ScrambleMasks | SlowDataEncoder.cpp:90-106 | the three constants are the first 24 bits of the shift register x^7 + x^4 + 1 started from all ones |
| SlowData.NullSlowData | DStarDefines.h:55 | the scrambled filler is what the program sends elsewhere for no slow data |
| SlowData.ReadsBack | SlowDataEncoder.cpp:90-106 | a round of three-byte reads, descrambled by running the register afresh for each frame, is the buffer |
| SlowData.HeaderPayload | SlowDataEncoder.cpp:209-289 | stripping the blocks of type 0x50 of their tags gives the 41 header bytes, and the rest is filler |
| SlowData.HeaderEndToEnd | SlowDataEncoder.cpp:209-289 | twenty reads, descrambled and stripped, are the encoded header, which is accepted with every field restored |
| SlowData.SendHeader | SlowDataEncoder.cpp:108-289 | filling the buffer and reading it twenty times sends the encoded header, accepted with every field restored |
| SlowData.TextPayload | SlowDataEncoder.cpp:291-329 | stripping the blocks of type 0x40, numbered 0 to 3, gives the 20 padded characters, and the rest is filler |
| SlowData.TextEndToEnd | SlowDataEncoder.cpp:291-329 | twenty reads, descrambled and stripped, are the padded text |
| SlowData.SendText | SlowDataEncoder.cpp:113-329 | filling the buffer and reading it twenty times sends the padded text |
| SlowData.GpsPayload | SlowDataEncoder.cpp:331-358 | the buffer is the least number of sixty-byte groups for n + ceil(n/6) bytes; decoding gives the prefix that the blocks hold, all of it exactly when n + ceil(n/5) fits |
| SlowData.GpsLosesACharacter | SlowDataEncoder.cpp:331-358 | 51 characters lose their last |
| SlowData.InterleavingLosesNothing | SlowDataEncoder.cpp:137-168 | every text, GPS and header block is copied exactly once and in order; the exact condition for the whole GPS string |
| SlowData.InterleavingLosesACharacter | SlowDataEncoder.cpp:137-168 | 36 characters lose one in interleaving that they keep otherwise |
| SlowData.TextOnce | SlowDataEncoder.cpp:146-168 | at every point of interleaving the text blocks so far are the first of the text, once each, in order |
| SlowData.GpsOnce | SlowDataEncoder.cpp:146-168 | the same for GPS blocks |
| SlowData.HeaderOnce | SlowDataEncoder.cpp:146-168 | the same for header blocks |
| SlowData.CSlowDataEncoder.SetHeaderData | SlowDataEncoder.cpp:209-289 | fills the buffer with the tagged blocks of the encoded header, checksum computed from the written bytes |
| SlowData.CSlowDataEncoder.SetTextData | SlowDataEncoder.cpp:291-329 | fills the buffer with the text image |
| SlowData.CSlowDataEncoder.SetGPSData | SlowDataEncoder.cpp:331-358 | the loop ends, stays in the buffer and writes the GPS image |
| SlowData.CSlowDataEncoder.GetHeaderData | SlowDataEncoder.cpp:108-111 | the next three bytes, masked with the register, and the cursor moved on; without a buffer the null slow data |
| SlowData.CSlowDataEncoder.GetTextData | SlowDataEncoder.cpp:113-116 | the next three bytes, masked with the register, and the cursor moved on; without a buffer the null slow data |
| SlowData.CSlowDataEncoder.GetGPSData | SlowDataEncoder.cpp:118-121 | the next three bytes, masked with the register, and the cursor moved on; without a buffer the null slow data |
| SlowData.CSlowDataEncoder.BuildInterleavedData | SlowDataEncoder.cpp:137-180 | lays out text, GPS and header as the interleaving theorems require, inside the buffer |
| SlowData.CSlowDataEncoder.GetInterleavedDataLength | SlowDataEncoder.cpp:182-191 | the least number of whole sixty-byte groups that hold all the parts; 44 when there are none |
| IrcCodec.ComposeMessage | IRCMessage.cpp:112-131 | prints the message as the grammar has it |
| IrcCodec.FeedConcat | IRCReceiver.cpp:54-131 | reading two chunks is reading their concatenation |
| IrcCodec.FeedMessage | IRCReceiver.cpp:75-129 | a printed well-formed message is queued unchanged |
| IrcCodec.StreamRoundTrip | IRCReceiver.cpp:54-131 | messages printed one after another and split across reads anywhere are queued exactly, in order |
| IrcCodec.OnlyWellFormed | IRCReceiver.cpp:54-131 | whatever bytes arrive, every queued message is well-formed |
| IrcCodec.SurvivesIff | IRCMessage.cpp:112-131 | whatever the message, it survives printing and reading exactly when it is well-formed and has a prefix, or a command that is not empty and does not begin with a colon, or is the empty message |
| IrcCodec.ParsePrefix | IRCMessage.cpp:73-86 | splits at the first ! and the first @, refusing when either is missing |
| IrcCodec.PrefixPartsIff | IRCMessage.cpp:73-86 | nick, name and host are recovered exactly when no separator hides in them |
| IrcCodec.IRCReceiver.Entry | IRCReceiver.cpp:54-131 | the read loop queues what the byte machine says |
| IrcLines.QueueIsLines | IRCReceiver.cpp:75-129 | whatever bytes arrive, the queue holds exactly the finished lines, each split at its spaces and colons as the grammar has it |
| IrcLines.ReadsAreLines | IRCReceiver.cpp:54-131 | so too for every cutting into reads |
| IrcLines.PrintedLine | IRCMessage.cpp:112-131 | a well-formed message is printed on one line, which ends in CR LF and holds no other |
| IrcLogin.LoginLanguage | IRCProtocol.cpp:174-296 | over every session the output without PONGs is a prefix of PASS NICK NICK* USER JOIN [JOIN] WHO PING* |
| IrcLogin.LoginOrder | IRCProtocol.cpp:86-297 | the application is switched on only after a 004 and our own JOIN echo; no PING while one is unanswered |
| IrcLogin.SilentServer | IRCProtocol.cpp:174-296 | a silent server is given up after exactly the remaining calls of a measure on state and timer |
| IrcLogin.SilentWithin121 | IRCProtocol.cpp:174-296 | from every reachable state that is within 121 calls |
| IrcSession.MessageIff | IRCProtocol.cpp:91-172 | one message: false exactly for a kick of our nick, a new state exactly when the machine waited for it (433 at 2, 004 at 4, our own JOIN at 6 and 8, PONG at 12), a PONG exactly for a PING |
| IrcSession.DrainSplit | IRCProtocol.cpp:91-172 | messages are taken one by one, and none after a kick |
| IrcSession.PingsAnswered | IRCProtocol.cpp:102-110 | in every session each PING read is followed at once by the PONG that carries its first parameter, and there is no other PONG |
| IrcSession.NickTold | IRCProtocol.cpp:174-296 | in every session the last NICK sent is the nick in use, and PINGs and the application go under it |
| IrcSession.LoginCompletes | IRCProtocol.cpp:86-297 | with no kick and no collision, a 004 within thirty calls of USER and each JOIN echoed within thirty calls, every call answers true and exactly PASS, NICK, USER, JOIN (twice with a debug channel), WHO and the switch-on have gone out, with their parameters |
| IrcLogin.IRCProtocol.SetNetworkReady | IRCProtocol.cpp:74-83 | starts or ends a session, keeping the timer |
| IrcLogin.IRCProtocol.DrainQueue | IRCProtocol.cpp:91-172 | handles the received messages in order until a kick |
| IrcLogin.IRCProtocol.ProcessQueues | IRCProtocol.cpp:86-297 | one call is the timer, the messages and one step of the machine, with what it sends |
| Caches.SortedInOrder | GroupHandler.cpp:931-943 | walking a map visits its keys in increasing order, so each once |
| Caches.Sorted | GroupHandler.cpp:931-943 | walking a map visits every key and nothing else, without repeats |
| Caches.Pair.LocateIff | CacheManager.cpp:198-232 | locating a user finds exactly the way recorded in the maps of the first cache that has one: his repeater, its gateway, recorded or its callsign with G as eighth character, and that gateway's address |
| Caches.Pair.LocatedIff | CacheManager.cpp:21-28 | a user is located exactly when one of the caches has such a way |
| Caches.Pair.HomeIff | GroupHandler.cpp:414-417 | a talker's home is the repeater recorded for him in the first cache that has one |
| Group.StepWf | GroupHandler.cpp:323-860 | every step keeps references inside the heap and callsigns and user objects one to one |
| GroupRuns.FloorExclusive | GroupHandler.cpp:323-860 | over every run the floor goes only from free to a stream and back, and every frame sent while it is held is of that stream and goes to the list fixed at its start |
| GroupRuns.OneStreamAtATime | GroupHandler.cpp:457-500 | frames with no release between them carry one id |
| GroupRuns.LoginHoldIsSilent | GroupHandler.cpp:345-357 | while a login stream holds the floor no G2 frame at all leaves, if its id is not reused by a logoff |
| GroupSilence.ForwardIff | GroupHandler.cpp:323-500 | every event: exactly when something of a G2 stream is forwarded; never while its record is that of a login |
| GroupSilence.LoginLostIff | GroupHandler.cpp:323-860 | every event: exactly when it takes a login record away |
| GroupSilence.LoginRunSilent | GroupHandler.cpp:323-860 | in every run nothing of a stream is forwarded while its login record lasts |
| GroupSilence.SubscribingIsSilent | GroupHandler.cpp:345-357 | from the header that subscribes its user until its login record is gone, nothing of the stream is forwarded, whether or not it takes the floor |
| GroupWaits.TwoPhases | GroupHandler.cpp:785-837 | in any run in which neither a packet under its id nor remote control touches it, a record is gone exactly when the steps can be split into two phases: one in which it runs past four seconds, and four seconds more |
| GroupSilence.ReturnForwardIff | GroupHandler.cpp:358-412 | after any such run a later header of the subscriber under the same id is forwarded exactly when both phases are over, the floor is free and there is somewhere to send it |
| GroupSilence.BlockedLoginHeard | GroupHandler.cpp:389-391 | a subscription made while the floor was held becomes audible that way, for every cutting of the wait into clock steps |
| GroupRuns.ReusedIdIsHeard | GroupHandler.cpp:371-387 | without that condition it does |
| GroupRuns.LoginKeptIff | GroupHandler.cpp:323-860 | while the floor stays with a login stream, an event takes its login record away exactly when it is a logoff under its id |
| GroupRuns.ReceiveOnlyRun | GroupHandler.cpp:450-477 | on a receive-only group no G2 stream is ever relayed |
| GroupTiming.AlwaysBacked | GroupHandler.cpp:709-837 | in every run a held floor has an un-ended live record or a running link timer |
| GroupTiming.TickBacked | GroupHandler.cpp:757-837 | a clock step that leaves the floor held uses up exactly its length of the time left |
| GroupTiming.FloorFreedIff | GroupHandler.cpp:757-837 | a clock step frees the floor exactly when the link timer runs out, whoever started it, or the stream's own record does |
| GroupTiming.HeardKeepsFloorIff | GroupHandler.cpp:457-500 | a G2 stream heard once in every four seconds keeps the floor for a whole run exactly when no link timer was left running, or the run ends before it does |
| GroupTiming.LinkTimerCuts | GroupHandler.cpp:504-526 | a run in which a leftover link timer cuts such a stream off |
| GroupTiming.BoundedRelease | GroupHandler.cpp:709-837 | once 4000 ms pass with no packet of the stream the floor has been free, in every run |
| GroupTiming.RunOutlived | GroupHandler.cpp:785-860 | within the bound no live record ever refers to a deleted user, in any run in which remote control drops no single user with two records |
| GroupTiming.LongWaitDangles | GroupHandler.cpp:785-860 | a run just beyond the bound that ends with one |
| GroupTiming.OutlivesIff | GroupHandler.cpp:785-860 | over all such runs it never happens exactly when the longest step is at most the user timeout less 7999 ms, or users never time out |
| GroupSubscription.TickSubscriber | GroupHandler.cpp:709-860 | a clock step removes a subscriber exactly when the ping sweep gives up on him, a logoff record of his runs out, or it leaves the floor free and finds his time up |
| GroupSubscription.StepSubscriberIff | GroupHandler.cpp:323-860 | every event: exactly when it ends a subscription, and what it does to the subscriber's timer |
| GroupSubscription.SubscriptionLasts | GroupHandler.cpp:323-860 | over every run in which nothing comes from a subscriber he is there at the end exactly when no clock step left the floor free once the user timeout had passed since he was last heard, and no earlier logoff record of his ran out or ended |
| GroupWaits.QuickReturnIff | GroupHandler.cpp:820-837 | a user who logs off and subscribes again, whatever happens to others meanwhile and afterwards, is dropped exactly when the four seconds of his logoff record end in the second of the two runs, or his time is up in it |
| GroupFanOut.FanOutKeys | GroupHandler.cpp:420-448 | the list gains exactly the repeaters at which the recorded ways to subscribers start, the excluded one apart |
| GroupFanOut.FanOutEntry | GroupHandler.cpp:435-443 | an entry that was there stays; each new one has a slash, the first six characters and the last as its route, and the gateway and address on the way to a subscriber |
| GroupFanOut.RelayOnce | GroupHandler.cpp:946-959 | relaying sends exactly one frame to each listed repeater and none elsewhere |
| GroupFanOut.FrozenUntilRelease | GroupHandler.cpp:323-860 | until its release a stream keeps the floor and its list |
| GroupFanOut.TalkKeptIff | GroupHandler.cpp:323-860 | while the floor stays with a talk stream its record is taken exactly by a new user's header under its id |
| GroupFanOut.TalkReaches | GroupHandler.cpp:414-479 | unless so overtaken, each voice frame of a talk stream goes exactly once to each repeater a subscriber was located at when it began, except the talker's own, and to each that the list already held, and to no other |
| GroupFanOut.ReflectorReaches | GroupHandler.cpp:574-641 | the same for a reflector stream, with nobody kept out, unless its id is that of a login record |
| GroupFanOut.EchoIff | GroupHandler.cpp:415-431 | the talker's own repeater is on the list exactly when it was on it before he took the floor or the two caches of a dual-stack server disagree about him |
| GroupFanOut.StaleListEchoes | GroupHandler.cpp:539-549 | a run in which a talker whose caches agree hears himself, because the list of a dropped talker was left in place |
| GroupFanOut.CopiesAreOne | GroupHandler.cpp:323-455 | any number of consecutive copies of a header leave the group and the trace of the first alone |
| GroupFanOut.DropDanglesIff | GroupHandler.cpp:527-571 | dropping one of several users leaves a record of his exactly when he had two |
| GroupFanOut.CleanIff | GroupHandler.cpp:479-570 | every event keeps a free floor's list empty, except the drop of the talker while others stay |
| GroupFanOut.CleanRun | GroupHandler.cpp:323-860 | so in every run without such a drop a free floor has an empty list |
| GroupFrames.TakesIff | GroupHandler.cpp:323-626 | every event: a free floor goes to a stream exactly when one starts, and its list is then what was left and the repeaters chosen, each with its route, gateway and address |
| GroupFrames.StepFrames | GroupHandler.cpp:323-654 | every event sends each repeater, and the reflector, exactly these frames in this order: a stream's header (none under a login record's id) and 21 frames of text, or a voice frame |
| GroupRecords.RecordIff | GroupHandler.cpp:323-860 | every event: which records there are, of which kind, with which timer and end mark |
| GroupRecords.JoinsIff | GroupHandler.cpp:345-357 | every event: a user becomes a subscriber exactly with his header for the group |
| GroupRecords.NullIff | GroupHandler.cpp:614-641 | every event: which ids have a null entry in the record map |
| GroupRecords.DeletesIff | GroupHandler.cpp:502-572 | every event: a user object is deleted exactly when its subscriber is dropped by remote control or his time is up |
| GroupRecords.LinkTypeIff | GroupHandler.cpp:656-672 | only linking changes the link type, and nothing the configuration |
| GroupRecords.LinkTimerIff | GroupHandler.cpp:574-654 | every event: when the link timer starts, stops, runs out and counts |
| GroupRecords.RefHeldIff | GroupHandler.cpp:628-654 | over every calm run a reflector stream loses the floor exactly when two seconds pass between two of its frames |
| Caches.Cache.AddressNeedsRepeater | CacheManager.cpp:21-28 | a known address comes with a repeater |
| GroupObject.GroupHandler.constructor | GroupHandler.cpp:278-306 | a new group is free, with no users, records or repeaters |
| GroupObject.GroupHandler.G2HeaderArrives | GroupHandler.cpp:323-455 | login, talk, duplicate and logoff as the step function has them, with everything sent |
| GroupObject.GroupHandler.G2VoiceArrives | GroupHandler.cpp:457-500 | relay, timers and the end of a stream |
| GroupObject.GroupHandler.RefHeaderArrives | GroupHandler.cpp:574-626 | a reflector stream takes a free floor |
| GroupObject.GroupHandler.RefVoiceArrives | GroupHandler.cpp:628-654 | and is relayed until its end |
| GroupObject.GroupHandler.LogoffUser | GroupHandler.cpp:502-572 | remote logoff of everybody or of one |
| GroupObject.GroupHandler.Clock | GroupHandler.cpp:709-860 | the four sweeps of the clock, whatever order their loops take |
| GroupObject.GroupHandler.ClockRecords | GroupHandler.cpp:785-837 | the erasing record loop is the simultaneous sweep |
| GroupObject.GroupHandler.SendToRepeaters | GroupHandler.cpp:929-959 | one frame to each repeater, in map order |
| GroupObject.GroupHandler.SendFromText | GroupHandler.cpp:961-992 | twenty-one frames to each repeater, under the floor's id |
| GroupObject.GroupHandler.UpdateRepeaters | GroupHandler.cpp:419-448 | the loop builds the fan-out list |
| GroupObject.GroupHandler.FindGroup | GroupHandler.cpp:225-234 | the first group whose floor has the id, or none has |
| GroupObject.GroupHandler.FindByHeader | GroupHandler.cpp:212-223 | the first group the destination names, or none does |
| Backoff.StepsInPhase | DExtraHandler.cpp:523-605 | the k-th retry comes no earlier than 2^(k-1) seconds after the start, for any clock steps |
| Backoff.Waits | DExtraHandler.cpp:667-685 | the waits are 1, 2, 4, 8, 16 and 32 seconds, and then 60 each |
| Backoff.TriesIff | DExtraHandler.cpp:594-602 | n retries in a window are possible exactly when the n-th is due inside it |
| Backoff.RetryBound | DCSHandler.cpp:568-631 | at most 7 connects in a DExtra window and 6 in a DCS window without an unlink, and both happen |
| Backoff.UnlinkBound | DCSHandler.cpp:633-641 | at most 5 more disconnects while a DCS link is being unlinked |
| Backoff.UnlinkedWindow | DCSHandler.cpp:241-279 | at most 11 packets in a DCS window in which the link is unlinked |
| Backoff.UnlinkedWindowFull | DCSHandler.cpp:568-641 | and 11 do happen |
| Links.SweepResult | DExtraHandler.cpp:330-341 | with one handler to a group the walk over the list treats each handler against its group as it was |
| LinkAgreement.StepAgreesIff | DExtraHandler.cpp:201-275 | every event keeps group and handler in agreement, except a call from a DCS handler the group has left, which always breaks it under a condition on the current link |
| LinkAgreement.LeftoverDisturbs | DCSHandler.cpp:526-546 | such a call is possible |
| LinkAgreement.FreshAgrees | GroupHandler.cpp:283-285 | unlinked groups with no handlers agree |
| LinkAgreement.BootAgrees | GroupHandler.cpp:272-276 | linking each group once at the start establishes the agreement |
| LinkAgreement.ClockKeepsAll | DExtraHandler.cpp:530-566 | poll inactivity never drops a handler: it always reconnects |
| LinkAgreement.ClockIsPhase | DExtraHandler.cpp:523-605 | a linking handler's clock is the backoff phase, each try one connect |
| LinkAgreement.AlwaysPaced | DExtraHandler.cpp:523-605 | from any state that is on schedule, in every run, a linking handler has made at most six retries in its window |
| LinkAgreement.StartedAndPaced | DExtraHandler.cpp:201-213 | so from the configured groups, through the links made at the start, in every reachable state |
| LinkAgreement.AtMostEightCalls | DExtraHandler.cpp:237-605 | from the start of the program on, at most seven connects have gone out since a handler's window started, and one disconnect, with which it goes |
| LinkAgreement.EightCallsHappen | DExtraHandler.cpp:237-605 | a run from the start in which all eight do |
| LinkAgreement.StepAttachedIff | GroupHandler.cpp:656-707 | while the links agree, every event keeps a handler for each linking group, except exactly the three kinds named |
| LinkEvents.UpIff | DExtraHandler.cpp:463-490 | every event: a DExtra link comes up, with a handler that carries it, exactly when its reflector acknowledges it from the right address, port and repeater; only a DCS call claims so besides |
| LinkEvents.DownIff | DExtraHandler.cpp:463-605 | every event: a link that is up goes down exactly at a disconnect, an unlink, a minute of silence or a DCS call |
| LinkEvents.GoneIff | DExtraHandler.cpp:463-521 | every event: a handler goes exactly when it is refused, disconnected or unlinked |
| LinkEvents.NewIff | GroupHandler.cpp:656-707 | every event: a group gets a handler exactly when it is unlinked and told to link to an XRF reflector with a known address and a free protocol handler, which is then asked at that address |
| LinkEvents.GroupLinkIff | GroupHandler.cpp:656-707 | every event: the group's link type, reflector and status afterwards |
| LinkEvents.SendsIff | DExtraHandler.cpp:352-605 | every event: exactly what goes to the group and to its reflector, and what the handler is afterwards: address, state, stream, window, polls |
| LinkEvents.StartedTimed | DExtraHandler.cpp:523-605 | from the start on, in every undisturbed run, the timers are where those theorems want them |
| LinkEvents.StaysUpIff | DExtraHandler.cpp:430-605 | over every run that nobody interrupts a link goes down exactly when the reflector is silent for a minute |
| LinkEvents.StreamArrives | DExtraHandler.cpp:352-461 | a whole stream over a link that is up, into a group with a free floor: each repeater gets its header, the text and every frame once, in order, and the floor is free again |
| LinkEvents.BootDelivers | DExtraHandler.cpp:201-521 | so from the start of the program: the link that was asked for is acknowledged, and carries such a stream |
| LinkEvents.UnlinkEndsStream | DExtraHandler.cpp:254-268 | unlinking in mid-stream sends the reflector a disconnect and the group the end of its stream, and once that is delivered the floor is free |
| LinkObjects.DExtraHandler.CalcBackoff | DExtraHandler.cpp:667-685 | the n-th wait after a reset is min(2^n, 60) seconds |
| LinkObjects.DExtraHandler.ProcessConnect | DExtraHandler.cpp:463-521 | acknowledge, refusal and disconnect |
| LinkObjects.DExtraHandler.ProcessHeader | DExtraHandler.cpp:352-401 | a header starts a stream for the group |
| LinkObjects.DExtraHandler.ProcessVoice | DExtraHandler.cpp:430-461 | and its frames are passed on until the end |
| LinkObjects.DExtraHandler.ClockInt | DExtraHandler.cpp:523-605 | the window, the polls, the stream timeout and the retries |
| LinkObjects.DExtraHandler.Unlink | DExtraHandler.cpp:237-274 | disconnect, end of stream, and the handler goes |
| LinkObjects.LinkTable.SweepList | DExtraHandler.cpp:178-194 | the walk that erases handlers is the simultaneous sweep |
| LinkObjects.LinkTable.LinkGroup | GroupHandler.cpp:674-707 | a known gateway is linked to, with a handler when one is free |
| LinkObjects.LinkTable.RemoteLink | GroupHandler.cpp:656-672 | only an unlinked group, only to an XRF or DCS reflector |
| LinkObjects.LinkTable.RemoteUnlink | RemoteHandler.cpp:187-210 | the handler goes and the group forgets its reflector |

## Left out

- User objects are entries of an explicit heap map, and deleting one marks it; the record map and the subscriber map refer to them by number, which is how a dangling reference can be stated.
- GroupTiming.RunOutlived: a remote logoff of a single user with two records is excluded, because GroupFanOut.DropDanglesIff shows that it breaks it.
- GroupRuns.LoginHoldIsSilent: assumes that no logoff header reuses the id of the login stream on the floor; GroupRuns.LoginKeptIff and GroupRuns.ReusedIdIsHeard show that this is needed.
- GroupSilence.SubscribingIsSilent: covers the life of the login record and no more; GroupSilence.ReturnForwardIff and GroupSilence.BlockedLoginHeard show that it cannot.
- GroupSilence.ForwardIff: a frame handed to the link handler counts as forwarded; the handler sends it on only when it is linked and idle (DExtraHandler.cpp:607-640).
- SlowData.CSlowDataEncoder.SetGPSData: an empty string is taken only when there is no GPS buffer; with one the code deletes it and keeps the pointer. Strings whose sizes overflow 32 bits are excluded.
- SlowData.CSlowDataEncoder.BuildInterleavedData: GPS with a header but no text assumes the room that the code assumes.
- Reading interleaved data back, which wraps on the GPS size, and the two reset methods of the encoder.
- SlowData.CSlowDataEncoder.GetHeaderData: without a buffer only the first three filler bytes may be read; the code would read past them.
- SlowData.CSlowDataEncoder.GetTextData: without a buffer only the first three filler bytes may be read, as above.
- SlowData.CSlowDataEncoder.GetGPSData: without a buffer only the first three filler bytes may be read, as above.
- GroupObject.GroupHandler.G2VoiceArrives: a frame under the id of a null record, which the code dereferences, is excluded.
- GroupObject.GroupHandler.Clock: its trace holds no acknowledgements, announcements or pings.
- Caches.Pair.LocateIff: a repeater callsign of fewer than eight characters is its own gateway; the code would write past its end.
- LinkEvents.SendsIff: the sequence number of the end frame sent on unlinking is not part of the trace.
- LinkAgreement.StepAgreesIff: DCS handlers themselves are not modelled, only their calls into the group; the DCS unlink path leaves its handler and the group's status in place, so agreement does not hold for DCS.
- The shutdown unlink, incoming DExtra links (the program makes none), and the white and black lists, without which a kept header and a stream id come and go together.
- Stepping an iterator back before the first handler in the DExtra unlink loop: modelled as filtering the list.
- The announce timer, IRC directory updates and wall-clock time; the users that the ping sweep gives up on are a parameter of the clock step.
- Header rewriting before relaying (flags, CQCQCQ, addresses and ports); a frame in the trace has its stream id, kind, repeater and address.
- IRCMessage.numParams, which the model takes to be the number of parameters, and the 200-byte limit of the IRC client's line buffer.
- IrcCodec.ParsePrefix: when the at sign comes first the length of the name wraps round, as substr reads it.
- Sockets, threads, configuration and logging.
