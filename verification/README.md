# Proofs about hibari's realtime and huddle server

hibari is a team chat server in Go. This project models the parts of it that keep shared state right while many things happen at
once, and proves what they promise:

- **Huddles** (`HuddleModel`, `HuddleRuns`, `HuddleUpkeep`, `HuddleKeys`, `HuddleStore`, `HuddleProtocol`, `HuddleOccupied`,
  `HuddleSweep`). Voice huddles live in several Redis structures that Lua scripts change. `HuddleStore.Store` has one method per
  script over those structures; each is proved to be one transition of a single map from user to seat, and `HuddleRuns` and
  `HuddleUpkeep` prove properties of every run of transitions. `HuddleProtocol` interleaves the Postgres transactions that start,
  enter, end and close huddles with the scripts, `HuddleOccupied` says exactly when an active huddle has somebody in it, and
  `HuddleSweep` is the loop that takes out everyone whose heartbeats stopped.
- **The Hub** (`HubModel`, `Hub`, `HubProtocol`, `HubSafety`, `HubReferences`, `HubRegions`). `Hub.Hub` keeps its indexes over
  `Client` objects, one method per region run under the mutex. `HubProtocol` interleaves those regions with permission changes,
  authorization and Redis subscriptions; the theorems about revoked access and about reference counts range over every such run.
  `HubRegions` proves that the methods take the protocol's steps, over a naming of the `Client` objects.
- **The Broker** (`Broker`, `BrokerProtocol`, `BrokerSafety`, `BrokerWaiting`, `BrokerSync`). Reference-counted Redis subscriptions,
  confirmed by numbered PINGs on a connection that keeps its order. `Broker.Broker` is proved to take the machine's steps.
  `HubOnRedis` runs this machine under the Hub's and proves what the acknowledgement of a subscription promises.
- **The wire** (`Wire`). Which channels an event is published to, and suppressing the copies.
- **Presence** (`Presence`, `PresenceRuns`, `PresenceTold`, `PresenceRefreshes`). One Redis hash per user, written by any number of
  instances.
- **Refresh tokens** (`RefreshTokens`, `RefreshRuns`, `RefreshSessions`, `RefreshStore`). Session families under login, refresh,
  logout and revocation.
- **Text and pages** (`Like`, `SearchText`, `CodeRanges`, `Mentions`, `Urls`, `LinkTexts`, `MessageWindow`). LIKE patterns, the
  search box, code in messages, mentions and links outside code, and the page of a timeline around one message.

Identifiers are an opaque type; times are integers. A run is a sequence of steps from the empty state, each legal where it is taken.

## Findings

- The periodic presence refresh copies its counts without the user's lock and tells nobody. `PresenceRefreshes.HarmlessOrLies`: the
  stored state stays true after it exactly if, for each user without a sync under way, it writes what the instance has announced.
  `PresenceTold.ToldIsStored`: what was told stays what is stored exactly if each refresh goes unnoticed. Both fail: a refresh that
  copied its counts before a disconnect brings the deleted field back, so an absent user stays idle until the field expires
  (`PresenceRefreshes.StaleRefreshRevives`), and one between a sync's comparison and its script, though harmless to the truth, leaves
  the script nothing to tell (`PresenceRefreshes.RefreshCanSilenceASync`; `PresenceTold.SilencesIff` says exactly when, for a refresh
  of any instance). A refresh that wrote under the lock what is announced would be safe on both counts
  (`PresenceTold.PromptRefreshesAreSafe`).
- `Unsubscribe` on a connection that has left releases a channel nobody gives up if the connection still had the topic when it left
  (`Hub.Hub.Unsubscribe` states the exact condition, `HubRegions.UnsubscribeAfterLeaving` is the failing case). The only caller reads one
  connection from one goroutine and stops before it unregisters (`internal/httpx/ws.go:165-189`), so this does not happen. The cap
  on subscriptions relies on the same single reader.
- An active huddle may be empty with nothing left to end it. `HuddleOccupied.ForgottenIff` says exactly when. While every check and
  every Redis call succeeds there are two ways: the undo of a failed join does not look whether anyone is left
  (`HuddleOccupied.UndoLeavesItEmpty`), and whoever is taken out of a huddle before its start commits is not checked for, because the
  check finds no row (`HuddleOccupied.EvictionLeavesItEmpty`). When something fails there are two more: a check that fails is only
  logged, and a script that ran and whose result is lost took people out with no check; a join lost like that leaves its own seat
  behind as well (`HuddleOccupied.LostReplyLeavesItEmpty`). The other direction holds in every run: an ended huddle is empty.
- When the status of a join cannot be encoded, the in-huddle mark moves untold, and after a move inside the workspace the departure will
  be untold (`HuddleRuns.AnnouncementsTrueIff`).
- The comment at `internal/auth/sessions.go:88` expects several rows of one family among those revoked; since a family has at most one
  unrevoked token (`RefreshRuns.FamilyIsOneChain`), each family comes once anyway.

## Model

| member | source | states |
|---|---|---|
| HuddleStore.Store.Join | internal/chat/huddle/huddle.go:166-210 | A full huddle changes nothing; otherwise the user has exactly the new seat in all keys, an earlier seat and its deadline are gone and returned with its version, and the in-huddle mark moves only with the workspace. |
| HuddleStore.Store.Remove | internal/chat/huddle/huddle.go:272-276 | The participation goes from every key together with its mark; a second call finds nothing; the returned head count is what is left. |
| HuddleStore.Store.Detach | internal/chat/huddle/huddle.go:129-148 | One participation is taken out of the members hash, the deadlines and its user's key, and the version grows; when moving, the mark stays. |
| HuddleStore.Store.StatusOff | internal/chat/huddle/huddle.go:117-127 | The mark of a user goes, and its departure is published exactly if the user was in the workspace's set. |
| HuddleStore.Store.Mark | internal/chat/huddle/huddle.go:198-208 | A move announces a departure only for a changed workspace and an arrival only where the user was not in the set before. |
| HuddleStore.Store.Heartbeat | internal/chat/huddle/huddle.go:248-258 | Accepted exactly from the user's current participation; then the deadline of that seat is the given one, otherwise nothing changes. |
| HuddleStore.Store.Sweep | internal/chat/huddle/huddle.go:300-315 | At most `max` participations leave, all overdue, the most overdue first; a short sweep leaves nobody overdue; each report carries the version and head count right after that departure. |
| HuddleStore.Store.RangeByScore | internal/chat/huddle/huddle.go:301-301 | The earliest expired deadlines, each once, at most `max`, all of them if fewer. |
| HuddleStore.Store.SetMuted | internal/chat/huddle/huddle.go:339-350 | Only the mute flag of that participation changes, with a new version; none if nobody holds it. |
| HuddleStore.Store.SetTrack | internal/chat/huddle/huddle.go:373-405 | The mid is replaced with a new version, except that an equal mid changes nothing and a new screen over the limit is refused. |
| HuddleStore.Store.CountSharers | internal/chat/huddle/huddle.go:385-392 | The number of people of the huddle who share a screen. |
| HuddleStore.Store.JoiningSoon | internal/chat/huddle/huddle.go:434-441 | The user is noted until the given time, lapsed notes go, and the version grows. |
| HuddleStore.Store.Clear | internal/chat/huddle/huddle.go:454-465 | Everyone in the huddle leaves all keys and is returned; its version and notes go; other huddles are as before. |
| HuddleStore.Store.Current | internal/chat/huddle/huddle.go:501-520 | The participation that the user, and nobody else, holds; none exactly if the user has no seat. |
| HuddleStore.Store.Participant | internal/chat/huddle/huddle.go:485-498 | The record of the only holder of a participation. |
| HuddleStore.Store.InHuddle | internal/chat/huddle/huddle.go:613-632 | Exactly those of the given users who sit in a huddle of the workspace. |
| HuddleKeys.KeysAfterLeaving | internal/chat/huddle/huddle.go:129-148 | Taking one seat out of every key keeps all keys projections of the seats; no deadline or mark is orphaned. |
| HuddleKeys.KeysAfterMoving | internal/chat/huddle/huddle.go:184-208 | Giving up one seat for another, also of another huddle or workspace, keeps all keys projections of the seats. |
| HuddleKeys.KeysAgree | internal/chat/huddle/huddle.go:104-148 | Among the keys themselves: nobody is in two huddles or twice in one, deadlines and participations match one to one, and whoever has a user key has a mark in the set of exactly one workspace. |
| HuddleKeys.HashSize | internal/chat/huddle/huddle.go:175-180 | The size of the members hash is the number of people in the huddle. |
| HuddleRuns.RunKeepsValid | internal/chat/huddle/huddle.go:104-148 | In every run each user has one seat at most and each participation one holder. |
| HuddleRuns.AnnouncementsTrueIff | internal/chat/huddle/huddle.go:116-127 | In every run: what is published for everybody in every workspace goes joined, left, joined, ..., ends in joined exactly while the user sits there, and would still do so whoever left next, exactly if every join that was not refused had its status encoded. |
| HuddleRuns.StaysSilent | internal/chat/huddle/huddle.go:154-208 | As long as a user stays in a workspace nothing is published about the user there, whatever devices and huddles the user moves to and whatever others do, whether or not statuses could be encoded. |
| HuddleRuns.NeverOverLimit | internal/chat/huddle/huddle.go:175-182 | No run puts more people into a huddle than the limit of its joins. |
| HuddleRuns.RejoinIsAdmitted | internal/chat/huddle/huddle.go:175-182 | In every run whose joins apply one limit, whoever is in a huddle can come back to it from another device and then has that seat. |
| HuddleRuns.NeverTooManyScreens | internal/chat/huddle/huddle.go:386-397 | No run has more people sharing a screen in one huddle than the limit. |
| HuddleRuns.EqualVersionsEqualMembers | internal/chat/huddle/huddle.go:146-146 | Until the huddle is cleared its version never goes back and equal versions mean equal members with equal records. |
| HuddleRuns.RepeatedTrackIsNoOp | internal/chat/huddle/huddle.go:382-385 | Writing the same mid again changes nothing, not even the version. |
| HuddleUpkeep.HeartbeatKeepsTheSeat | internal/chat/huddle/huddle.go:242-258 | After an accepted heartbeat no sweep before its deadline takes the seat, in every run without a remove, clear, admitted join or further heartbeat that concerns it; from the deadline on a sweep may. |
| HuddleUpkeep.JoinKeepsTheSeat | internal/chat/huddle/huddle.go:194-196 | The same from an admitted join on, for the deadline it came with. |
| HuddleUpkeep.MutedShows | internal/chat/huddle/huddle.go:337-350 | Muting is answered exactly for a participation somebody holds; then its record shows the flag asked for under a version one higher, and nothing else changes. |
| HuddleUpkeep.TrackShows | internal/chat/huddle/huddle.go:364-405 | A camera shows as camera, a screen as screen, the other one stays, the answer tells what was replaced; a first screen over the limit is refused without a change. |
| HuddleUpkeep.RecordsKeep | internal/chat/huddle/huddle.go:337-405 | In every run whoever still sits on a participation shows the flag and the tracks last written for it, and everything else as at the join. |
| HuddleUpkeep.PendingIff | internal/chat/huddle/huddle.go:432-441 | In every run a reader at a time sees as about to join exactly those whose last note lapses later and who have not joined since, while the huddle was not cleared; notes thrown away as lapsed are never missed. |
| HuddleUpkeep.LapsedNotesGo | internal/chat/huddle/huddle.go:438-438 | Right after a note is written no lapsed one is stored. |
| HuddleUpkeep.ClearForgets | internal/chat/huddle/huddle.go:454-465 | A clear leaves nobody in the huddle, no version and no note of it; other huddles keep their people, version and notes. |
| HuddleUpkeep.JoinAnswers | internal/chat/huddle/huddle.go:166-210 | Refused exactly if the huddle is full without the user, then without a change; otherwise the version now stored, and the earlier seat's record with the version its huddle had once the seat was free. |
| HuddleProtocol.EndedHuddleIsEmpty | internal/chat/huddle.go:919-964 | In every interleaving an ended or deleted huddle is empty unless an archive or delete still owes its Clear; a seat in a huddle without a row belongs to a join in flight or awaiting undo, or to one that does not know that it wrote. |
| HuddleProtocol.NobodyEntersAnEndedHuddle | internal/chat/huddle.go:234-293 | Once ended or deleted a huddle stays so and its people only become fewer: no join ever adds to it. |
| HuddleProtocol.ClearAfterEndTakesNobody | internal/chat/huddle.go:960-964 | The Clear that follows a natural end removes nobody. |
| HuddleProtocol.StepKeepsInv | internal/chat/huddle.go:975-1024 | Row locks exclude each other, and every step of joining, ending, closing, undoing and clearing keeps the facts the theorems rest on. |
| HuddleOccupied.ForgottenIff | internal/chat/huddle.go:881-964 | In every run, failures included: each active huddle has somebody in it or a check owed or under way, all along the run, exactly if every undo on an active huddle left somebody else or a check, every commit of a start found somebody in the huddle or a check still owed, and every failed check and every script with a lost result left somebody or a check. |
| HuddleOccupied.ActiveIsOccupied | internal/chat/huddle.go:912-964 | In such a run an active huddle with no check owed or under way has somebody in it. |
| HuddleOccupied.StepForgetsIff | internal/chat/huddle.go:234-305 | One step leaves no active huddle empty and unchecked exactly if it leaves some; only undos, landing starts, failed checks and scripts with a lost result can fail to. |
| HuddleOccupied.UndoLeavesItEmpty | internal/chat/huddle.go:299-305 | A run ending with the undo of a failed join after which a huddle is active and empty with no transaction, undo, Clear or check owed. |
| HuddleOccupied.EvictionLeavesItEmpty | internal/chat/huddle.go:895-904 | The same without any failure: the starter joins elsewhere before the start commits, and the check of that eviction finds no row. |
| HuddleOccupied.LostReplyLeavesItEmpty | internal/chat/huddle/huddle.go:232-239 | A run in which the join script moved the only person of a huddle and its result was lost: the old huddle is active and empty with nothing owed, and the new seat is a stray. |
| HuddleSweep.Service.SweepHuddles | internal/chat/huddle.go:840-857 | The loop ends; afterwards nobody is overdue at the last clock reading, whoever left was overdue at some reading, all others are untouched, the count is right, and exactly the huddles it emptied have ended. |
| HuddleSweep.Service.AfterRemoval | internal/chat/huddle.go:881-916 | Everyone removed from a huddle with a row is told, in order; of the affected huddles exactly the active, now empty ones end. |
| HuddleSweep.Service.EndIfEmpty | internal/chat/huddle.go:919-964 | An active huddle ends exactly if nobody is in it, and nobody's seat changes. |
| Hub.Hub.constructor | internal/chat/realtime/hub.go:191-207 | A new Hub has no connections and all its indexes agree. |
| Hub.Hub.Register | internal/chat/realtime/hub.go:233-243 | The new connection is in every index, or, when shutting down, in none and its reference is given back. |
| Hub.Hub.UnregisterBegin | internal/chat/realtime/hub.go:250-276 | The connection leaves every index, each of its channels is listed for release once, and the epoch goes exactly with the user's last connection; a second call does nothing. |
| Hub.Hub.UnregisterEnd | internal/chat/realtime/hub.go:280-284 | The count of departures under way drops and the Hub is drained when nothing is left. |
| Hub.Hub.Shutdown | internal/chat/realtime/hub.go:675-679 | Drained exactly if shutting down with no connection registered and no departure under way. |
| Hub.Hub.SubscribeBegin | internal/chat/realtime/hub.go:298-308 | Nothing to do, over the cap, or the user's current epoch. |
| Hub.Hub.SubscribeEnd | internal/chat/realtime/hub.go:327-349 | A moved epoch means retry; otherwise the topic is added in both directions, or the reference given back exactly if it was not added. |
| Hub.Hub.Unsubscribe | internal/chat/realtime/hub.go:352-377 | A registered connection gives up the topic and releases just its channel; the exact condition under which the release matches what was given up. |
| Hub.Hub.Targets | internal/chat/realtime/hub.go:432-453 | Exactly the registered connections in an addressed room or workspace or of an addressed user, without those of the excepted user. |
| Hub.Hub.Deliver | internal/chat/realtime/hub.go:431-466 | Each target is offered the event once: it is sent, or the connection closes if its queue is full; afterwards nobody holds a closed room and exactly the given-up references are released. |
| Hub.Hub.CloseRooms | internal/chat/realtime/hub.go:469-481 | No connection keeps any of the rooms, nothing else changes, and each holder's reference is released. |
| Hub.Hub.RevalidateBegin | internal/chat/realtime/hub.go:498-518 | Without a connection nothing happens; otherwise the epoch grows and exactly the topics in scope of the user's connections are collected. |
| Hub.Hub.RevalidateEnd | internal/chat/realtime/hub.go:531-562 | The user's connections lose exactly the collected topics that are not allowed; each loss is listed once and released. |
| Hub.Hub.CloseSessions | internal/chat/realtime/hub.go:572-583 | Exactly the connections of the session, or of the user. |
| Hub.Hub.SetActivity | internal/chat/realtime/hub.go:758-766 | The flag changes only on a registered connection and only to a new value. |
| Hub.Hub.Counts | internal/chat/realtime/hub.go:745-754 | How many connections of the user are registered and how many of them are viewing. |
| Hub.AddedKey | internal/chat/realtime/hub.go:770-777 | Adding to one set keeps the index an exact inverse without empty entries. |
| Hub.DroppedKey | internal/chat/realtime/hub.go:779-788 | Removing from one set, and dropping it when empty, keeps the index an exact inverse without empty entries. |
| Hub.ListedUsers | internal/chat/realtime/hub.go:269-271 | A user is in the index exactly while a connection of the user is registered. |
| HubModel.LeaveLosesAll | internal/chat/realtime/hub.go:255-268 | A departing connection gives up each of its channels once and no other. |
| HubSafety.RevokedStaysOut | internal/chat/realtime/hub.go:495-569 | Once a revalidation begun after a user lost a topic has finished, no connection of the user holds it and none gains it until it is granted again, in every interleaving with subscribe, register, unregister and other revalidations. |
| HubSafety.BeginCatches | internal/chat/realtime/hub.go:504-518 | Moving the epoch fences off every authorization read before, and everything held in scope is collected. |
| HubReferences.ReferencesAreConserved | internal/chat/realtime/hub.go:321-357 | For every channel the Broker's count is the registered holders plus operations in flight with a reference plus releases owed; so a held channel is never dropped and an unused one is. |
| HubReferences.NeverOverTheCap | internal/chat/realtime/hub.go:303-306 | With one reader per connection no connection has more than 500 subscriptions. |
| HubRegions.RegisterRegion | internal/chat/realtime/hub.go:233-243 | On a Hub that shows a state of the protocol, the last region of Register takes the step of the protocol and hands back what it owes. |
| HubRegions.UnregisterRegion | internal/chat/realtime/hub.go:251-273 | The region of Unregister is the step of the protocol. |
| HubRegions.UnsubscribeRegion | internal/chat/realtime/hub.go:352-377 | On a registered connection, Unsubscribe is the step of the protocol. |
| HubRegions.SubscribeBeginRegion | internal/chat/realtime/hub.go:298-308 | Subscribe goes on to authorize exactly where the protocol can, with the same epoch. |
| HubRegions.SubscribeEndRegion | internal/chat/realtime/hub.go:326-349 | The last region of Subscribe, retried, added or not, is the step of the protocol. |
| HubRegions.CloseRoomsRegion | internal/chat/realtime/hub.go:469-481 | closeRooms is the step of the protocol. |
| HubRegions.RevalidateBeginRegion | internal/chat/realtime/hub.go:498-517 | The first region of revalidateUser is the step of the protocol. |
| HubRegions.RevalidateEndRegion | internal/chat/realtime/hub.go:536-562 | The last region of revalidateUser is the step of the protocol. |
| HubRegions.SameLost | internal/chat/realtime/hub.go:123-137 | Naming connections keeps what a change gives up on each channel. |
| HubRegions.UnsubscribeAfterLeaving | internal/chat/realtime/hub.go:352-377 | Unregister and then Unsubscribe on a topic the connection had releases its channel twice for one loss. |
| Broker.Broker.AcquireRegion | internal/chat/realtime/redis.go:156-164 | The channel is counted once more, and is first exactly if nobody counted it; a closed Broker counts nothing. |
| Broker.Broker.ConfirmedRegion | internal/chat/realtime/redis.go:178-185 | The acquisition is confirmed exactly if the channel's number is acknowledged. |
| Broker.Broker.TokenRegion | internal/chat/realtime/redis.go:204-214 | A token above all earlier numbers, with a waiter; none when closed. |
| Broker.Broker.ReleaseRegion | internal/chat/realtime/redis.go:237-251 | The count drops; the last release forgets the number and sends UNSUBSCRIBE unless closed. |
| Broker.Broker.Pong | internal/chat/realtime/redis.go:331-341 | The acknowledged number never drops and exactly the waiters up to it wake. |
| Broker.Broker.FailAll | internal/chat/realtime/redis.go:346-369 | Every waiter learns the error and none is left; closing twice does nothing. |
| BrokerSafety.AcquiredIsSubscribed | internal/chat/realtime/redis.go:152-192 | From the return of Acquire to the matching Release the channel is in Redis's subscription set and nothing on its way takes it out. |
| BrokerSafety.ReplayGivesTheCounts | internal/chat/realtime/redis.go:156-176 | Replaying what is sent and unprocessed, and then what is about to be sent, leaves exactly the channels with a positive count, and the count is the number of acquisitions not given back. |
| BrokerSafety.AckedIsProcessed | internal/chat/realtime/redis.go:326-342 | A number at or below the acknowledged one is out of the pipe: SUBSCRIBEs and PINGs share one increasing sequence. |
| BrokerWaiting.NobodyWaitsForNothing | internal/chat/realtime/redis.go:203-232 | In every run whoever waits for a number can go on once it or a later one is acknowledged, and until then its PING is in the pipe or its PONG among the replies. |
| BrokerWaiting.PongLetsGo | internal/chat/realtime/redis.go:325-342 | Receiving the PONG of the number, or of a later one, lets the waiting call go on. |
| BrokerWaiting.NoWaiterIsLeft | internal/chat/realtime/redis.go:210-232 | In every run each registered waiter belongs to a call that still holds its number, above the acknowledged one; none outlives its call. |
| BrokerSync.SyncDelivers | internal/chat/realtime/redis.go:194-201 | When Sync returns, everything Redis had accepted for the instance when it began was handed over, in order. |
| HubOnRedis.HeldIsSubscribed | internal/chat/realtime/hub.go:321-324 | In every run of the Hub and the Broker together: a channel that a registered connection holds, its own or a subscribed topic, is in the subscription set of Redis and nothing on its way takes it out. |
| HubOnRedis.ReferencesAreCounts | internal/chat/realtime/redis.go:163-163 | In every run of both, the references of the Hub on a channel are the count of the Broker. |
| HubOnRedis.LooseCount | internal/chat/realtime/redis.go:238-242 | The acquisitions no operation in flight runs are as many as connections holding the channel plus releases owed. |
| Wire.ChannelsFor | internal/chat/realtime/wire.go:93-115 | The addressed channels and those of users whose access changed, each once, in order of first mention. |
| Wire.ChannelsAreThose | internal/chat/realtime/wire.go:93-115 | The channels are, each once, exactly those of the addressed rooms, workspaces and users and of the users whose access changed. |
| Wire.AddressedInstancesHear | internal/chat/realtime/wire.go:91-115 | An instance with an addressed connection, or one of a user whose access changed, listens to a channel of the event. |
| Wire.RecentIds.Seen | internal/chat/realtime/wire.go:187-199 | An id is a copy exactly if it is in the window; a new one enters and the oldest goes when the window is full. |
| Wire.WindowIsLastAccepted | internal/chat/realtime/wire.go:177-199 | The window is always the last `size` accepted ids. |
| Wire.CopiesAreSuppressed | internal/chat/realtime/wire.go:177-199 | A copy is suppressed as long as fewer than `size` new ids came in between. |
| Presence.Store.Measure | internal/chat/presence/presence.go:103-114 | Offline without a field, active if some field is positive, idle otherwise. |
| Presence.Store.Sync | internal/chat/presence/presence.go:102-130 | Only the instance's own field changes; if that changes the user's state, every channel is told the state now stored, once each and in order, and otherwise nobody is told anything. |
| Presence.Store.Refresh | internal/chat/presence/presence.go:135-141 | Every given field is written, none else, and nothing is told. |
| Presence.Store.States | internal/chat/presence/presence.go:144-158 | The state of each user, in order. |
| PresenceRuns.SyncStep | internal/chat/presence/presence.go:102-130 | The script of a sync takes the machine's step, on the stored fields and on everything published. |
| PresenceRuns.RefreshStep | internal/chat/presence/presence.go:135-141 | So does the script of a refresh. |
| PresenceRuns.QuietIsTrue | internal/chat/realtime/hub.go:697-742 | Whenever no sync of a user is under way the stored state is active, idle or offline exactly as a viewing connection, any connection or none exists on any instance, in every run whose refreshes were harmless to the user. |
| PresenceRuns.RefreshKeepsInvIff | internal/chat/realtime/hub.go:643-653 | A refresh keeps the fields of a user in step with what is announced exactly if a sync holds the lock of the user or what it writes is what the instance has announced, up to being positive. |
| PresenceRefreshes.HarmlessOrLies | internal/chat/realtime/hub.go:643-653 | For a user without a sync under way: whatever happens after a refresh but another one, the stored state is true whenever the user is quiet, exactly if the refresh was harmless. |
| PresenceTold.ToldIsStored | internal/chat/presence/presence.go:116-129 | In every run, on every channel that each sync of the user names: all along it the states heard of the user differ one from the next and the last one is the stored state, exactly if every refresh went unnoticed. |
| PresenceTold.RefreshAgreesIff | internal/chat/realtime/hub.go:643-653 | A refresh keeps what was told in agreement with what is stored exactly if another instance counts a viewing connection, or the field is positive as before, or it comes as zero beside another one. |
| PresenceTold.PromptRefreshesAreSafe | internal/chat/realtime/hub.go:643-653 | In every run whose refreshes write what is announced while no sync of the user is under way, they change nothing stored, what is told is what is stored, and that is true whenever the user is quiet. |
| PresenceTold.PromptRefreshIsCurrent | internal/chat/realtime/hub.go:643-653 | A refresh with current counts and no sync of those users under way changes no field. |
| PresenceTold.SilencesIff | internal/chat/realtime/hub.go:643-653 | While a sync is under way: a refresh, of any instance, right before its script silences it exactly if the sync would tell a change and the refresh hides it: its own field comes to where the sync takes it, or the field of another instance is positive or is there while its own stays positive or zero. |
| PresenceRefreshes.RefreshCanSilenceASync | internal/chat/realtime/hub.go:643-653 | A run whose one refresh is harmless and silences a sync: a user becomes idle, the stored state is true, every sync named the channel, and nobody is ever told. |
| PresenceRefreshes.StaleRefreshRevives | internal/chat/realtime/hub.go:643-653 | A run with one refresh, its last step, after which nobody is connected, offline was told last, and the user is stored as idle. |
| RefreshStore.Service.Login | internal/auth/service.go:390-409 | A first token of a new family. |
| RefreshStore.Service.Refresh | internal/auth/service.go:267-334 | An unrevoked, unexpired token is rotated into its successor; a rotated one revokes its family, published if that hit a row; everything else is refused without a change. |
| RefreshStore.Service.Logout | internal/auth/service.go:340-364 | The unrevoked tokens of the presented token's family are revoked; an unknown token is no error. |
| RefreshStore.Service.RevokeSession | internal/auth/sessions.go:58-73 | Found exactly if the session is the user's own with an unrevoked token; then it is revoked and published. |
| RefreshStore.Service.RevokeOtherSessions | internal/auth/sessions.go:78-98 | The families returned are exactly the user's others with an unrevoked token, never the kept one; each is counted once and published once. |
| RefreshStore.Service.ResetPassword | internal/auth/onetimetoken.go:169-171 | All unrevoked tokens of the user are revoked. |
| RefreshStore.Service.SessionActive | internal/auth/store/refresh_tokens.sql.go:102-113 | True exactly if an unrevoked, unexpired token of that user and family exists and the user is not deleted. |
| RefreshRuns.FamilyIsOneChain | internal/auth/store/refresh_tokens.sql.go:16-20 | In every run the tokens of a family form one rotated_from chain of one user in which only the newest can be unrevoked. |
| RefreshRuns.ActiveIsTheTip | internal/auth/store/refresh_tokens.sql.go:102-113 | A session is active exactly while the newest token of its family is unrevoked and unexpired. |
| RefreshRuns.AcceptedAtMostOnce | internal/auth/service.go:262-286 | A raw token that was exchanged once is never accepted again; presenting it again revokes the family for good unless its user is deleted. |
| RefreshRuns.RevocationsKill | internal/auth/store/refresh_tokens.sql.go:272-278 | Reuse, logout, revoking the session or the others, and a password reset leave the family with no unrevoked token. |
| RefreshRuns.DeadStaysDead | internal/auth/store/refresh_tokens.sql.go:188-193 | A family without an unrevoked token never gets one again. |
| RefreshSessions.RevokesOnly | internal/auth/store/refresh_tokens.sql.go:205-301 | Revoking a session, the others or all of a user hits exactly the unrevoked rows of that session, of the user's sessions but the kept one, of the user; every other row stays as it was. |
| RefreshSessions.LogoutRevokesOnly | internal/auth/service.go:340-364 | A logout hits exactly the unrevoked rows of the presented token's family; an unknown token changes nothing. |
| RefreshSessions.ExchangedIff | internal/auth/service.go:267-312 | A raw token is exchanged exactly if it is the newest of its family and the session is active, gives its family away exactly if it was exchanged before and its user exists, and is refused without a change otherwise. |
| RefreshSessions.SessionAfter | internal/auth/sessions.go:58-98 | For every session, time and transaction: exactly which sessions are active afterwards, so each operation ends the sessions it names and no other. |
| RefreshSessions.SessionRuns | internal/auth/service.go:24-25 | After every run a session is active until thirty days after its last exchange if no step ended it, and over otherwise, whatever happens to other sessions. |
| RefreshSessions.LoginLasts | internal/auth/service.go:390-409 | A login starts a session that is active for thirty days. |
| Like.PatternMeansContains | internal/chat/search.go:304-318 | The pattern is never rejected and matches exactly the texts that contain the term. |
| Like.EscapedIsLiteral | internal/chat/search.go:316-318 | An escaped text matches itself and nothing else. |
| Like.LikePattern | internal/chat/search.go:311-314 | The term is normalised first and escaped then, between percent signs; with PatternMeansContains, exactly the texts containing the normalised term match. |
| SearchText.SplitSearchTokens | internal/chat/search.go:259-284 | The tokens of the text: spaces separate, except between quotes. |
| SearchText.TokensKeepTheText | internal/chat/search.go:258-284 | Nothing but the separating spaces is lost and no token is empty. |
| SearchText.ParseSearchText | internal/chat/search.go:226-256 | The words to find and to leave out, or the error for an overlong text, no word to find, or too many. |
| SearchText.WrittenReadsBack | internal/chat/search.go:218-256 | Words written plainly or, spaces and all, as quoted phrases read back as exactly those words, each on its side and in order; over 200 characters or over eight words, those to leave out included, are refused, and so are only words to leave out. |
| SearchText.OpenQuoteReadsBack | internal/chat/search.go:286-289 | A quote that is never closed runs to the end and is dropped: the text reads as if it were closed there. |
| SearchText.SplitDriverTerm | internal/chat/search.go:291-302 | The first of the longest terms, and the others in order. |
| CodeRanges.CodeRanges | internal/chat/mention/mention.go:118-137 | The reading of the text: fences paired from the front, inline code in between. |
| CodeRanges.AppendInlineCode | internal/chat/mention/mention.go:141-157 | The inline code of a stretch, from the front: non-empty and on one line. |
| CodeRanges.ReadingIsProper | internal/chat/mention/mention.go:109-137 | The ranges are in order and disjoint; each is a block between two fences without a fence inside, or two backticks around something without a backtick or line end. |
| CodeRanges.InsideOrOutside | internal/chat/mention/mention.go:63-66 | A stretch without backticks is in code as a whole or not at all. |
| CodeRanges.PairIsNext | internal/chat/mention/mention.go:121-133 | A corollary of the reading: a block runs from the next fence to the first one after it; without a block no two fences are left to pair. |
| CodeRanges.NothingMissed | internal/chat/mention/mention.go:150-155 | Consecutive backticks outside code with no code between them enclose nothing or span lines. |
| CodeRanges.FencesAreBlocks | internal/chat/mention/mention.go:118-133 | Every fence that another one follows at a distance begins inside a block: only a last one without a partner stays text. |
| Mentions.Parse | internal/chat/mention/mention.go:52-86 | The targets of the tokens outside code, each at its first occurrence. |
| Mentions.EveryToken | internal/chat/mention/mention.go:48-53 | The scan finds the token at every position where the pattern matches: none overlaps another. |
| Mentions.MentionsAreOutsideCode | internal/chat/mention/mention.go:47-86 | A target is mentioned, once, exactly if a token naming it stands in the text with no character in code; of two targets, before every such token of the second stands one of the first. |
| Mentions.GroupsMentionedBy | internal/chat/mention/mention.go:47-86 | Everyone is mentioned exactly by "<!channel>" outside code and those present exactly by "<!here>". |
| Mentions.UsersMentionedBy | internal/chat/mention/mention.go:47-76 | A user is mentioned exactly by "<@", 26 letters or digits that read as the user's id, and ">" outside code. |
| Urls.ExtractURLs | internal/chat/linkpreview/urls.go:32-65 | The texts of the links outside code, in order; the scan ends. |
| Urls.ExtractedLinks | internal/chat/linkpreview/urls.go:28-65 | Every extracted URL has a scheme and more, no character in code, and the URLs are disjoint and in order. |
| Urls.NoLinkMissed | internal/chat/linkpreview/urls.go:35-62 | A link that begins outside code is extracted, unless its position lies inside a link found before. |
| Urls.BareIsLongest | internal/chat/linkpreview/urls.go:50-54 | A corollary of the scans: a bare URL is the longest stretch of URL characters from its start that does not end in trailing punctuation. |
| LinkTexts.AddressYieldsItself | internal/chat/linkpreview/urls.go:47-60 | A message of URL characters that begins with a scheme and does not end in punctuation yields itself and nothing else exactly if something but a slash goes on after the scheme. |
| LinkTexts.LabelledYieldsItsUrl | internal/chat/linkpreview/urls.go:40-46 | A message that is just one labelled link yields its URL and nothing else. |
| LinkTexts.UrlInText | internal/chat/linkpreview/urls.go:47-60 | Outside code such a URL after a character that is no letter or digit is extracted as it stands, up to punctuation and the next character that cannot be part of it. |
| LinkTexts.LabelledInText | internal/chat/linkpreview/urls.go:40-46 | Outside code the URL of a labelled link is extracted wherever the link stands. |
| LinkTexts.OnlyTheseAreLinks | internal/chat/linkpreview/urls.go:37-62 | Every extracted URL stands in the message in one of these two ways. |
| Urls.Candidates | internal/chat/linkpreview/urls.go:72-94 | None if there are more than five; otherwise each previewable URL once, in order. |
| Urls.CandidatesMean | internal/chat/linkpreview/urls.go:67-94 | The candidates are distinct, exactly the extracted URLs that may be previewed, in the order they first appear. |
| MessageWindow.MessageLimit | internal/chat/message_page.go:18-26 | Between 1 and 100, 50 by default, and the request itself when it is in range. |
| MessageWindow.MessagesBefore | internal/chat/message_page.go:229-251 | The newest rows before a position, in ascending order, and whether more exist. |
| MessageWindow.MessagesAfter | internal/chat/message_page.go:254-276 | The oldest rows after a position, and whether more exist. |
| MessageWindow.MessagesAround | internal/chat/message_page.go:188-226 | The page around the target, or the newest page if it is missing or deleted. |
| MessageWindow.AroundIsAWindow | internal/chat/message_page.go:188-226 | The target with its direct neighbours in ascending order, at most `limit` rows; at most limit / 2 are older, exactly that many if even older ones exist, newer ones fill the rest as long as there are any; flags exact at both ends. |
| MessageWindow.NoGap | internal/chat/message_page.go:213-220 | Between the ends of the page no row of the timeline is missing, but for one in the target's place. |

## Left out

- HuddleStore.Store.Join: payloads are values rather than JSON, keys are typed rather than strings, and keys do not expire.
- HuddleStore.Store.Sweep: the branch for a deadline without a participation is shown unreachable and left empty.
- HuddleProtocol.EndedHuddleIsEmpty: rows are locked one huddle at a time; the unique index that allows one active huddle per room, and the retry it causes, are not modelled. A script that reaches Redis only after its caller gave up and let the row go is not modelled.
- HuddleOccupied.ForgottenIff: the check after an eviction is owed from the script on, while the program begins it only after the join and its undo.
- HuddleSweep.Service.SweepHuddles: one process; other processes changing Redis between two batches are covered by HuddleProtocol, not by this loop.
- Hub.Hub.Deliver: which send queues are full is an input; the messages about removed subscriptions are not modelled.
- Hub.Hub.Register: creates the connection in the region that registers it; the first look at the shutdown flag is only an early exit.
- HubSafety.RevokedStaysOut: authorization reads one snapshot of permissions per query, and a room never changes its workspace.
- HubReferences.NeverOverTheCap: assumes that a connection subscribes again only after its last Subscribe returned, as its single reader does.
- HubReferences.ReferencesAreConserved: Unsubscribe and Unregister are steps of registered connections, which the single reader guarantees.
- BrokerSafety.AcquiredIsSubscribed: sends succeed and the connection is not replaced. What go-redis does after a failed write (it reconnects and resubscribes) is not part of this model; were the SUBSCRIBE just lost, another Acquire in the gap before the release would be confirmed too early (internal/chat/realtime/redis.go:167-182).
- HubOnRedis.HeldIsSubscribed: under the same assumptions; references have no names in the program, and here a failed Acquire releases its own.
- BrokerSync.SyncDelivers: one instance, messages without content.
- Wire.RecentIds.Seen: ids are not the zero ULID, which the ring uses for an empty slot.
- PresenceRuns.QuietIsTrue: fields do not expire and scripts succeed.
- PresenceTold.ToldIsStored: speaks of channels that every sync of the user names; one that joins or leaves the list in between may miss a state.
- RefreshStore.Service.Refresh: one atomic transaction; a raw token stands for its hash, and no two tokens share one. Interleavings under READ COMMITTED are not modelled.
- RefreshStore.Service.Login: only the new session; passwords, rate limits and the access token are not modelled. One-time tokens of ResetPassword are not modelled either.
- Like.LikePattern: NFKC and lower case are one given function from text to text.
- SearchText.ParseSearchText: one character per code point.
- CodeRanges.CodeRanges: texts are sequences of characters rather than bytes, so positions count characters; backticks and newlines are single bytes in UTF-8.
- Mentions.Parse: whether 26 characters read as an id, and which, is a given function.
- Urls.ExtractURLs: the two patterns are written out as scans; positions count characters.
- Urls.Candidates: whether a URL parses, has a host and is not the application's own is a given predicate.
- MessageWindow.MessagesAround: the queries are the ordered rows of the timeline; which rows belong to it is not modelled.
- Snapshots of huddles for reading (several pipelined commands), the media server, TURN credentials and the huddle's chat messages.
- HTTP and WebSocket handlers, encoding, logging, metrics, the browser client, mail, object storage, passwords and the link fetcher.
- Typing indicators, Resync and the periodic loops that only call the operations above.
