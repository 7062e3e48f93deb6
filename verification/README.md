# Sessions, live streams and chat history: a Dafny model

This project models the two services of a messenger and proves properties of them.

**The auth service** keeps sessions in a table and copies of them in a cache whose entries expire.
`AuthMachine` is a state machine with one step per access (a lookup, an update, a cache read, write or
deletion, a clock reading, a random draw). Any number of calls interleave, and each access may fail
without effect or fail although it took effect. `AuthUseCase` holds the four calls as methods over
repository and cache objects, each proved to carry out the machine's call; everything else is proved about
runs of the machine.

**The push hub** of the chat service keeps, per user, a Go slice of streams. `StreamHub` models slices as
a backing array and a length: `Append` writes in place or reallocates, `ShiftLeft` moves slots, and `Hub` is
proved to implement one list per user. `HubMachine` takes the same operations apart into single slot reads
and writes, because `Push` copies a slice header under the lock and reads the slots without it;
`HubRefinement` shows that the machine refines one list per user in lock order, and `HubInterference` says what
a running `Push` sends while its user's list changes.

**The chat store** is modelled twice in the same way: `ChatMachine` interleaves the statements of
`GetOrCreateChat`, `SendMessage` and `GetMessages` with failures at each, and `ChatService` has the service
and its repositories as methods proved to carry out the machine's calls. `ChatOutcomes` says exactly when each
whole call succeeds and what it stores. `History`, `HistoryWalks` and
`HistoryRuns` are about reading a history page by page. `Feed` runs streams and calls together, one at a
time, and compares what streams received with what was stored.

Two places in the repository disagree with its code; the model follows the code.

* The cursor. The protocol file says the next cursor is the timestamp of the last message received
  (`chat-service/proto/chat/v1/chat.proto:43`). The code uses the timestamp of the first message *not*
  returned (`chat-service/internal/service/service.go:90`) and the next query is strictly older than it
  (`chat-service/internal/repository/messagerepository.go:44`), so that message is never delivered.
  `CodedCompleteIffOnePage` shows that a walk as coded is complete exactly if the history fits one page,
  and `CodedWalk` which messages are lost. Completeness is proved for the documented cursor only.
* `Logout`. When the lookup fails, the branch at `auth-service/internal/usecase/auth.go:172` answers
  `false` without an error unless the session was not found, and reports "not found" as an error; the
  integration test at `auth-service/internal/usecase/auth_integration_test.go:284-287` expects the opposite.

Other properties that the code does not have are stated with their exact extent, for all inputs:

* a revoked session is never answered `true`: `LateAnswersIff` gives all delays for which it can be;
* a refresh token is exchanged once: `UsedTwiceIff` for interleaved calls, from any moment of any run, and
  `SpentIff` for whole calls;
* the cache agrees with the table after a logout or a rotation: `LogoutCoherentIff` and
  `RotationCoherentIff`; every other whole call keeps the agreement (`CallCoherent`);
* an inserted chat can be used: `StrandedIffOpenerEnded`;
* a push sends once to each stream of its list: `RemovalRepeats` and `ShiftMisses` for a push that a whole
  `Unsubscribe` interrupts. While the moves of an `Unsubscribe` interleave with the reads, each send is at
  its place or one place further (`OneUnsubscribeFrays`).

Time is an integer in nanoseconds and never runs backwards. What the environment decides at an access (how
much time has passed, whether it fails, the random value, the gap in an id sequence) is a parameter.

## Model

| member | source | states |
|---|---|---|
| SessionTable.Holder | auth-service/internal/infrastructure/sqlstore/sessionrepository.go:104-129 | the row a token's lookup finds holds that token; if there is none, no row holds it |
| SessionTable.Revoke | auth-service/internal/infrastructure/sqlstore/sessionrepository.go:83-101 | a revocation keeps every row and its identity, changes only active rows of the token, stamps those, and leaves no row of the token active |
| SessionTable.RevokeOne | auth-service/internal/infrastructure/sqlstore/sessionrepository.go:83-101 | with unique tokens, revoking an active session's token changes that one row and no other |
| SessionTable.SessionRepository.SessionByID | auth-service/internal/infrastructure/sqlstore/sessionrepository.go:28-53 | gives the row's session, "not found" for a missing row, and an error when the access fails |
| SessionTable.SessionRepository.SessionByRefreshToken | auth-service/internal/infrastructure/sqlstore/sessionrepository.go:104-129 | finds the session whose row holds the token, or reports that there is none |
| SessionTable.SessionRepository.CreateSession | auth-service/internal/infrastructure/sqlstore/sessionrepository.go:56-80 | inserts one active row under a new id, unless the access was lost; a late failure leaves the row behind; tokens stay unique if no row held this one, which the table itself does not demand |
| SessionTable.SessionRepository.RevokeByRefreshToken | auth-service/internal/infrastructure/sqlstore/sessionrepository.go:83-101 | the table afterwards is the revoked table, and the answer is whether some active row held the token |
| SessionCache.Ttl | auth-service/internal/infrastructure/redis-cache/redis-cache.go:54-61 | an entry lives at most a day and never outlives a refresh token that is still valid; for an expired one it lives a minute |
| SessionCache.CacheStore.SetSession | auth-service/internal/infrastructure/redis-cache/redis-cache.go:48-64 | the entry of that key alone is replaced, with the clamped deadline, unless the write was lost |
| SessionCache.CacheStore.GetSession | auth-service/internal/infrastructure/redis-cache/redis-cache.go:67-82 | gives the entry's session while its deadline has not passed, a miss otherwise, an error when the access fails |
| SessionCache.CacheStore.DelSession | auth-service/internal/infrastructure/redis-cache/redis-cache.go:85-87 | the entry of that key alone is gone, unless the deletion was lost |
| AuthUseCase.AuthUseCase.Login | auth-service/internal/usecase/auth.go:86-139 | a failed lookup, an unknown address and a wrong password change nothing and give their errors; otherwise the machine's login is carried out and succeeds if and only if the draw, the insertion and the signing do; then the table has one new active row, under the id the access token names, with the returned user, application, refresh token and expiry, and both expiries count from the call's clock readings |
| AuthUseCase.AuthUseCase.Logout | auth-service/internal/usecase/auth.go:161-189 | carries out the machine's logout: a failed lookup gives `false` and no error, an unknown token "not found", neither changing anything; a holder gives whether its row was active, or an error if the update fails, and unless the update was lost that row is revoked and no other changed, and unless the deletion was lost its cache entry is gone |
| AuthUseCase.AuthUseCase.RefreshToken | auth-service/internal/usecase/auth.go:192-238 | carries out the machine's rotation: a failed lookup, an unknown token, and a holder that is revoked or past its expiry at the check give their errors and leave the table alone; otherwise it succeeds if and only if draw, insertion and signing do, whatever became of revocation and deletion, and the new row has the holder's user and application and the returned token and expiry |
| AuthUseCase.AuthUseCase.ValidateSession | auth-service/internal/usecase/auth.go:241-277 | carries out the machine's validation; `false` is given only for a row that is revoked or expired by then, `true` only before the row's expiry, a missing row gives an error, and if the cached copy, if any, equals the row and the table can be read, the answer is whether the row is active and unexpired |
| AuthTable.RunTable | auth-service/internal/infrastructure/sqlstore/sessionrepository.go:56-101 | in every interleaving tokens stay unique and rows keep their owner, token and expiry, move only from active to revoked, and never go away |
| AuthValidity.AnswersAreJustified | auth-service/internal/usecase/auth.go:241-277 | in every interleaving and with any failures: an answer `false` is right when given; an answer `true` comes before the expiry from a copy read while the row was active, the call's own or one cached for less than a day |
| AuthValidity.RevocationBites | auth-service/internal/usecase/auth.go:241-277 | if calls last at most D, a session revoked at time r is answered `true` only before its expiry and only by calls that started before r + D + 24h |
| AuthLineage.IssuedPairsMatchRows | auth-service/internal/usecase/auth.go:113-137 | in every interleaving the access token of an issued pair names the one row that holds the refresh token, with its user, application and expiry |
| AuthLineage.LogoutTellsTheTruth | auth-service/internal/usecase/auth.go:183-188 | a logout that does not fail returns true exactly if its own update revoked the row |
| AuthLineage.OneLogoutSucceeds | auth-service/internal/usecase/auth.go:161-189 | at most one logout per refresh token returns true |
| AuthExpiry.IssuedPairsExpireInTime | auth-service/internal/usecase/auth.go:118-137 | in every interleaving an issued pair's tokens expire one refresh and one access lifetime after some moment of the call that issued them |
| AuthExpiry.ExpiredTokensAreRejected | auth-service/internal/usecase/auth.go:206-208 | in every interleaving a rotation of a token that had expired when the call began fails |
| AuthRotation.RevokedForever | auth-service/internal/infrastructure/sqlstore/sessionrepository.go:86-88 | a revoked row stays as it is, whatever runs afterwards |
| AuthRotation.LateRotationsFail | auth-service/internal/usecase/auth.go:201-224 | once a token's revocation has committed, every rotation that looks the token up later fails and creates no row, in every continuation |
| AuthRotation.SuccessorsBounded | auth-service/internal/usecase/auth.go:201-224 | a session gets at most as many successors as rotations had looked it up when it was revoked |
| AuthRotation.ActiveRowsConserved | auth-service/internal/infrastructure/sqlstore/sessionrepository.go:56-101 | in every interleaving a user's active rows number as many as the calls that inserted a row of that user, less the calls that revoked one |
| AuthAtomic.CallsFinish | auth-service/internal/usecase/auth.go:86-281 | every call ends after at most eight accesses, whatever fails |
| AuthAtomic.CachedAnswersAreExact | auth-service/internal/usecase/auth.go:241-281 | with whole calls, evictions, clock ticks and failures but effective deletions, every cache entry equals its row and a validation answers what the table says at that moment |
| AuthAtomic.LogoutCoherentIff | auth-service/internal/usecase/auth.go:179-186 | a logout leaves the cache in agreement with the table if and only if it is not the case that its lookup worked, its deletion was lost, its update was not, and the session was active and cached |
| AuthAtomic.CallCoherent | auth-service/internal/usecase/auth.go:86-281 | a whole call keeps the agreement of cache and table, whatever fails, provided that a logout's or a rotation's deletion takes effect |
| AuthAtomic.WholeRunsAreRuns | auth-service/internal/usecase/auth.go:86-281 | every run of whole calls is one of the interleaved runs, so what holds of these holds of it |
| AuthWholeRotation.RotationIs | auth-service/internal/usecase/auth.go:201-213 | a whole rotation either fails before it changes anything, or passes the check with the row that holds its token; then that row is revoked unless the revocation was lost, its cache entry is gone unless the deletion was lost, and all other rows and entries are as they were |
| AuthWholeRotation.RotationCoherentIff | auth-service/internal/usecase/auth.go:210-213 | a rotation leaves the cache in agreement with the table if and only if it is not the case that it passed the check, its revocation was not lost, its deletion was, and the session was cached |
| AuthChains.RotationsFormChains | auth-service/internal/usecase/auth.go:192-238 | with whole calls whose revocations take effect, the sessions descending from one login have one user and application, one session per generation, and at most one active |
| AuthChains.TokensAreSingleUse | auth-service/internal/usecase/auth.go:192-238 | in such runs, those whose rotation fails after the revocation included, each refresh token is exchanged at most once |
| AuthRaces.LateAnswer | auth-service/internal/usecase/auth.go:257-261 | with no failure at all, for every delay below D + 24h and below a token's lifetime there is a run with calls of at most D in which a validation that begins that long after a successful logout answers `true` |
| AuthRaces.LateAnswersIff | auth-service/internal/usecase/auth.go:241-277 | if calls last at most D, a session revoked at time r can be answered `true` by a call that begins at r + delay if and only if delay is below D + 24h and below a token's lifetime |
| AuthReuse.FinishAll | auth-service/internal/usecase/auth.go:206-237 | all rotations that have passed the check, or are about to, can succeed together in one continuation |
| AuthReuse.OnlyAbleSucceed | auth-service/internal/usecase/auth.go:201-237 | once a row is revoked or past its expiry, no other rotation of its token succeeds in any continuation |
| AuthReuse.UsedTwiceIff | auth-service/internal/usecase/auth.go:201-237 | from any moment of any interleaving, two rotations of one token can both have succeeded in some continuation if and only if the row is active and not past its expiry, or two rotations have passed the check or are about to |
| AuthReuse.TokensCanBeUsedTwice | auth-service/internal/usecase/auth.go:206-210 | one such continuation, row by row: two rotations that look a token up before either revokes it both succeed and leave two active sessions |
| AuthReuse.SpentIff | auth-service/internal/usecase/auth.go:210 | after a whole rotation that issued a pair, the replaced row is revoked if and only if the revocation, whose result the code ignores, was not lost; the token can be exchanged again by a whole rotation if and only if it was lost and the token has not expired |
| StreamLists.Find | chat-service/internal/grpc/hub/hub.go:37-38 | the position of the first occurrence, or the length if there is none |
| StreamHub.Append | chat-service/internal/grpc/hub/hub.go:27 | the list grows by one at its end, in the same array exactly while there is capacity; otherwise in a new array with the old one untouched |
| StreamHub.ShiftLeft | chat-service/internal/grpc/hub/hub.go:39 | slots behind the removed one move to the left, and the old last slot keeps its stream |
| StreamHub.Locate | chat-service/internal/grpc/hub/hub.go:37-38 | the loop finds the first occurrence |
| StreamHub.Hub.Subscribe | chat-service/internal/grpc/hub/hub.go:25-29 | appends to the user's list and changes no other; arrays of different users stay disjoint |
| StreamHub.Hub.Unsubscribe | chat-service/internal/grpc/hub/hub.go:32-47 | removes the first occurrence from the user's list and the entry once the list is empty, and changes no other list |
| StreamHub.Hub.Push | chat-service/internal/grpc/hub/hub.go:50-58 | undisturbed, sends the message to every stream of the user's list, once per entry, in order |
| HubMachine.PushStaysWithUser | chat-service/internal/grpc/hub/hub.go:50-58 | in every interleaving of slot reads with appends, reallocations and shifts, a push sends only to streams that were registered under its user |
| HubRefinement.HubRefinesLists | chat-service/internal/grpc/hub/hub.go:25-47 | in every interleaving, whenever the lock is free, a user's list is what the operations so far make of it when done one after the other in the order in which they got the lock, and a user has an entry exactly if that list is not empty |
| HubInterference.QuietPushSendsSnapshot | chat-service/internal/grpc/hub/hub.go:50-58 | if no `Unsubscribe` of its user comes in between, a push sends to exactly its snapshot, once each, in order, however many `Subscribe` calls append or reallocate |
| HubInterference.OneUnsubscribeFrays | chat-service/internal/grpc/hub/hub.go:32-58 | with one `Unsubscribe` whose moves interleave with the reads, what is sent at any position k but the last is the snapshot's stream at k, or from the removed position on possibly the one after it |
| HubInterference.SubscriptionIs | chat-service/internal/grpc/hub/hub.go:25-29 | slot by slot, a `Subscribe` appends to its user's list, in place or by reallocation, and touches no other user |
| HubInterference.RemovalIs | chat-service/internal/grpc/hub/hub.go:32-47 | slot by slot, a whole `Unsubscribe` removes the first occurrence, repeats the last slot behind the new list, and touches no other user |
| HubInterference.UnsubscribeDuringPush | chat-service/internal/grpc/hub/hub.go:37-57 | for any push, whatever it copied and whatever was appended, reallocated or removed since, and any whole `Unsubscribe`: the sends that remain are the push's own slots, read after the shift |
| HubInterference.RemovalRepeats | chat-service/internal/grpc/hub/hub.go:37-57 | for any push and any list without repetitions, those sends reach a stream twice if and only if they would have without the removal, or the push reads the list's array up to its last slot at least, two sends on it are left, and it is not the last stream that left |
| HubInterference.ShiftMisses | chat-service/internal/grpc/hub/hub.go:37-57 | of the streams still to come, one is missed if and only if it is the removed one or, when that one was already served, the next in turn, and it is not the last of the list |
| HubInterference.UnsubscribeFromSnapshot | chat-service/internal/grpc/hub/hub.go:37-42 | for a push that reads the list's array, streams appended in place since included: one of the old sends is dropped (index i if still to come, else the one at the push's position), and behind them comes the first stream appended since, or else the last stream once more |
| HubInterference.RestRepeats | chat-service/internal/grpc/hub/hub.go:37-42 | such sends have no repetition if and only if a stream was appended in place since, or the last stream was removed, or at most one send was left |
| Registration.HandlerGone | chat-service/internal/grpc/chat/server.go:173-174 | ending one handler removes one entry from its user's list, keeps the order of the others, and changes no other user's list |
| Registration.Server.SubscribeBegin | chat-service/internal/grpc/chat/server.go:167-177 | without an authenticated user nothing is registered; otherwise the stream is registered last |
| Registration.Server.SubscribeEnd | chat-service/internal/grpc/chat/server.go:174-178 | the deferred removal takes out exactly that handler's registration |
| Feed.HubHoldsLiveStreams | chat-service/internal/grpc/chat/server.go:167-179 | in every run the hub's list of a user is that user's live streams in registration order, a user has an entry exactly while one is live, and there is no entry when none is |
| ChatMachine.OneChatPerPair | chat-service/internal/repository/chatrepository.go:23-65 | in every interleaving and with any failures, two successful calls get the same chat if and only if they name the same two users, in either order, and only one call ever reports a creation |
| ChatMachine.CreationsAreReported | chat-service/internal/repository/chatrepository.go:48-64 | a successful call says "created" if and only if it inserted the chat's row, and then both members are there; it reports the row's id and creation time |
| ChatMachine.ChatsAreWellFormed | chat-service/migrations/0001_init.up.sql:1-36 | a chat joins two different users in order, and its members are none or exactly those two |
| ChatMachine.CheckedSendCountsOne | chat-service/internal/repository/messagerepository.go:92-95 | an insertion by a member updates exactly one counter, the other user's |
| ChatMachine.SendsReportTheirMessage | chat-service/internal/service/service.go:116-146 | a checked send never ends in "no rows"; what it reports is the message it stored, the only one with its id, together with the chat's two users |
| ChatMachine.UnreadCountsAreExact | chat-service/internal/repository/messagerepository.go:92-95 | in every interleaving a counter is the number of the other user's messages since the user's last reset statement |
| ChatMachine.StrandedIffOpenerEnded | chat-service/internal/repository/chatrepository.go:48-62 | a chat without members can still get them if and only if the call that inserted it is still running; after that no call, not even another creation for the pair, repairs it |
| ChatMachine.MemberlessChatsAreUnusable | chat-service/internal/service/service.go:116-123 | every read or send on a chat without members is at its check or has failed |
| ChatMachine.MessagesGrow | chat-service/internal/repository/messagerepository.go:87-91 | the stored messages of an earlier moment of a run are a prefix of those of a later one |
| ChatOutcomes.CreationSucceedsIff | chat-service/internal/repository/chatrepository.go:23-65 | from every reachable world, whatever fails: a creation succeeds if and only if its users differ, the first statement works, and the second one does or the pair has a chat already; it reports the id and creation time of the pair's row, in either order of asking, and "created" if and only if there was no such row; two equal users violate the constraint |
| ChatOutcomes.ExistingChatIsFound | chat-service/internal/repository/chatrepository.go:34-40 | for a pair that has a chat, that chat and its creation time are reported and no table changes |
| ChatOutcomes.SelfChatIsRefused | chat-service/migrations/0001_init.up.sql:9 | a chat with oneself violates the constraint and changes no table, whatever fails |
| ChatOutcomes.NewChatIsFilled | chat-service/internal/repository/chatrepository.go:53-61 | a new chat has both users as its members, with nothing unread, unless the second statement is lost |
| ChatOutcomes.SendSucceedsIff | chat-service/internal/service/service.go:116-147 | a send succeeds if and only if the sender is a member, the text has 1 to 4096 characters and nothing fails; then exactly its message was appended and is reported with the chat's users; otherwise it ends in "permission denied", the constraint violation or the failure |
| ChatOutcomes.SendStoresIff | chat-service/internal/repository/messagerepository.go:83-109 | whatever fails, a send appends its message if the sender is a member, the text has 1 to 4096 characters, the check works and the insertion is not lost, and stores nothing otherwise |
| ChatOutcomes.StoredTextsFit | chat-service/migrations/0001_init.up.sql:17 | in every interleaving, whatever fails, every stored text has 1 to 4096 characters |
| ChatOutcomes.ReadSucceedsIff | chat-service/internal/service/service.go:65-98 | a read succeeds if and only if the caller is a member and nothing fails; it sets the caller's counter to 0 once the query has worked, unless the reset is lost, and changes nothing else |
| ChatCalls.CallsFinish | chat-service/internal/service/service.go:65-147 | every chat call ends after at most three accesses and moves no other call |
| ChatCalls.CallStores | chat-service/internal/service/service.go:125-146 | a call stores nothing or its request's one message, behind the old ones, with a new id and a time within the call, and reports just what it stored, or nothing after a failure |
| ChatCalls.CallResets | chat-service/internal/service/service.go:94-98 | without failures exactly the reads that succeed reset their caller's counter |
| ChatService.Lookup | chat-service/internal/repository/chatrepository.go:34-40 | finds the row of a pair if there is one |
| ChatService.ChatRepository.GetOrCreateChat | chat-service/internal/repository/chatrepository.go:23-65 | carries out the machine's two statements for the ordered pair; succeeds if and only if the users differ, the first statement works, and the second one does or the pair has a chat already; returns the pair's row, in either order, "created" if and only if it is new; equal users are refused and change nothing |
| ChatService.ChatRepository.IsMember | chat-service/internal/repository/chatrepository.go:68-85 | says whether the chat has a member row for the user, unless the access fails, and changes nothing |
| ChatService.ChatRepository.ResetUnread | chat-service/internal/repository/chatrepository.go:163-177 | sets that member's counter to 0 unless the access is lost, and changes nothing else |
| ChatService.ChatRepository.GetParticipants | chat-service/internal/repository/chatrepository.go:180-193 | gives the chat's two users, or "not found" |
| ChatService.MessageRepository.GetMessages | chat-service/internal/repository/messagerepository.go:23-80 | without a failure returns stored messages of that chat, older than the cursor if there is one, newest first and without repetition; what it leaves out is no newer than its last message and left out only when the limit is reached; changes nothing |
| ChatService.Query | chat-service/internal/repository/messagerepository.go:31-72 | the rows read one by one are the newest ones, newest first, without repetition |
| ChatService.MessageRepository.SendMessage | chat-service/internal/repository/messagerepository.go:83-109 | a text of 1 to 4096 characters is appended with the next id and the statement's time unless the access is lost, and a late failure still stores it; any other text violates the constraint and stores nothing |
| ChatService.MembersFit | chat-service/internal/repository/chatrepository.go:54-62 | when the second insertion runs, the chat is there and still without members, so it violates no constraint |
| ChatService.Service.GetOrCreateChat | chat-service/internal/service/service.go:60-62 | the same for the service: the pair's chat is returned in either order of asking, new exactly if there was none; equal users are refused |
| ChatService.Service.GetMessages | chat-service/internal/service/service.go:65-99 | without a caller nothing happens; a member's read succeeds if and only if nothing fails and sets the member's counter to 0, others get "permission denied"; a page has at most the limit if that is 1 to 100 and at most 50 otherwise, holds messages of that chat alone, older than the cursor, newest first; what it leaves out it had no room for and is no newer than its last message, and the next cursor, there exactly if something is left out, is the newest timestamp left out |
| ChatService.Service.SendMessage | chat-service/internal/service/service.go:116-147 | succeeds if and only if the sender is a member, the text has 1 to 4096 characters and nothing fails; then the message is appended and goes to the first user's streams, then to the second's; otherwise nothing is pushed, and a refused sender or text stores nothing |
| ChatService.Service.FanOut | chat-service/internal/service/service.go:143-144 | one delivery per stream of either user, in this order |
| History.PageSize | chat-service/internal/service/service.go:79-81 | a limit from 1 to 100 is taken as it is, any other becomes 50 |
| History.AnswerMeans | chat-service/internal/repository/messagerepository.go:31-49 | an answer holds stored messages of that chat alone, older than the cursor if there is one, newest first; what it leaves out it had no room for and is no newer than its last message |
| History.PageMeans | chat-service/internal/service/service.go:83-92 | the same for a page; its cursor is the newest timestamp of what it leaves out, and there is one exactly if it leaves something out |
| History.AnswerExists | chat-service/internal/repository/messagerepository.go:31-49 | every page query has an answer, whatever the ties |
| History.CursorAdvances | chat-service/internal/repository/messagerepository.go:44 | each page leaves strictly fewer messages to be read |
| History.WalksEnd | chat-service/internal/service/service.go:83-92 | every walk can be carried to its last page |
| History.WalkLength | chat-service/internal/service/service.go:83-92 | no walk has more pages than there are messages to read, plus one |
| History.DeliveredOnceInOrder | chat-service/internal/service/service.go:83-98 | with either cursor and any ties a walk goes from new to old and delivers no message twice |
| History.LostIffCutOff | chat-service/internal/service/service.go:88-92 | with either cursor and any ties a message is lost if and only if some page was cut at its timestamp without holding it |
| History.CodedCompleteIffOnePage | chat-service/internal/service/service.go:88-92 | as coded, a walk delivers the whole history if and only if it fits one page |
| History.DocumentedCompleteIffNoTieCut | chat-service/proto/chat/v1/chat.proto:42-52 | with the documented cursor, a walk delivers the whole history if and only if no page is cut inside a group of equal timestamps |
| History.DocumentedWalkIsTheHistory | chat-service/proto/chat/v1/chat.proto:42-52 | with the documented cursor and distinct timestamps a walk is the whole history, newest first, each message once |
| HistoryWalks.OnlyAnswer | chat-service/internal/repository/messagerepository.go:31-49 | with distinct timestamps the page query has one answer, the newest part of the history |
| HistoryWalks.CodedWalk | chat-service/internal/service/service.go:79-92 | as coded, with distinct timestamps and pages of n: a history of N messages takes floor(N/(n+1)) + 1 pages, page k starts at index k(n+1), and exactly the floor(N/(n+1)) indices congruent to n modulo n+1 are never delivered |
| HistoryWalks.DocumentedWalk | chat-service/proto/chat/v1/chat.proto:42-52 | with the documented cursor the pages of the same history add up to it |
| HistoryWalks.CursorIsStable | chat-service/internal/repository/messagerepository.go:44 | behind a cursor that came from a page, messages sent later change nothing |
| HistoryWalks.LiveWalkIsFrozen | chat-service/internal/repository/messagerepository.go:31-49 | a walk during which messages are sent is a walk over the history as it was when its first page was read |
| HistoryRuns.HistoryExtends | chat-service/internal/repository/messagerepository.go:87-91 | in every run what is added to a chat's history is not older than what it held |
| HistoryRuns.WalkDuringARun | chat-service/internal/repository/messagerepository.go:31-49 | a walk whose pages are read at any later and later moments of any interleaved run is a walk over the history at its first page |
| Feed.PushReceived | chat-service/internal/service/service.go:143-144 | a live stream of either user gets a pushed message once, every other stream nothing |
| Feed.FeedsAreExact | chat-service/internal/service/service.go:116-146 | in every run of whole calls, whatever fails, a stream has received, in order and once each, the messages reported as sent in its user's chats while it was registered, and nothing else |
| Feed.CalmRunsReportAll | chat-service/internal/service/service.go:116-146 | without failures the messages reported as sent are the stored messages, and the counters were last reset by the reads that succeeded |
| Feed.CalmFeedsAreHistory | chat-service/internal/service/service.go:116-146 | without failures a stream has received exactly the rows inserted in its user's chats while it was registered, in insertion order |
| Feed.CalmUnreadSinceLastRead | chat-service/internal/service/service.go:94-98 | without failures a counter is the number of the other user's messages since the user last read a page of the chat |

## Left out

- Password hashing, token signing and parsing, random bytes: a password check is a parameter, a refresh token a value that was never drawn before (an assumption on the random source, not a rule of the table), an access token a record.
- Interceptors and the error mapping of the gRPC handlers: the caller's user id is an input, absent when there is none.
- `Register`, `IsAdmin`, `GetUserChats` and `IncrementUnread`: single statements, a query whose order is not total, and a method the service does not call.
- The gateway, the WebSocket relay and the user interface.
- The text form of a cursor: a cursor is an optional timestamp. A text the database does not accept is an access that fails.
- Encoding and decoding of cached sessions: a failure there is an access that fails.
- Rounding: the database keeps microseconds and the cache rounds its deadlines; the model keeps nanoseconds.
- Integer widths: ids and counters are unbounded.
- Statements that overlap inside the database: each statement is one step, so rows become visible in the order of their ids and timestamps.
- The order of equal timestamps is left open for each query, as the query leaves it; no theorem assumes that two queries agree on it.
- Torn reads of a slot in `Push`: a slot read and a slot write are atomic.
- StreamHub.Hub.Push: the method's list does not change while it runs; what happens when it does is the subject of `HubMachine` and `HubInterference`, whose heap is a value.
- Registration.Server.SubscribeEnd: the wait for the client is the time between the two halves of the handler.
- ChatService.MessageRepository.SendMessage: the statement is one update of the tables; that a refused statement also uses up ids is covered by the gap parameter only.
- Failures of `stream.Send`: the code ignores them, so a delivery here means that `Send` was called.
- Feeds under interleaved sends: pushes of two sends may reach a stream in another order than the rows were stored, and a stream that stays registered can be missed when another one leaves (`ShiftMisses`), so agreement with the history is stated for whole calls.
