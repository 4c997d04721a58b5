# Verified models of Dormouse's stateful protocols and parsers

Dormouse keeps state that several parties touch at once: extension hosts that share one
archive file, a Relay that pairs Burrows with Clients, credential stores with caps and
single-use tokens, a broker between editor windows, PTY buffers and a coalescing writer.
Each module here models one of those pieces, branch by branch, and proves what it is for
over every input, every run or every interleaving.

| module | what it models |
|---|---|
| `ArchiveLock`, `ArchiveStore` | the file lock of the shared notepad archive, and the transactions over it |
| `EnrollOffer`, `MutateChain`, `Enrollment` | the installer's one-time enrollment offer, the mutex of a state file, and enrollment behind both |
| `RelayHub` | Burrow and Client connections, bindings and forwarding |
| `SetupTokens`, `PresenceNonces`, `PushSubscriptions`, `StateCache` | the Relay's credential and state stores |
| `PeerLink`, `FrameDecoder` | the broker's tables for other windows' PTYs, and the line decoder under it |
| `PtyBuffers`, `PtyCore`, `Ipv6` | output buffers, PTY generations with their sizes, address text |
| `SessionStore` | the one-in-flight session writer |
| `DocsInline`, `DocsParser` | the Markdown parser of the public docs: text into inlines, lines into blocks |
| `InlinePrinter`, `DocsPrinter` | inline text and documents as they are written, read back as what they mean |
| `Common` | options, filters, stable sort, text in chunks |

Two shapes recur. A protocol whose steps interleave (the file lock, the archive, the offer,
the state cache) is a relation or function from one state to the next, with an event for each
step and for a crash, and the results are about every run. An object whose methods update its
fields is a class, each method proved equal to a specification function of the old state; the
runs and invariants are proved about that function. Fields described as "what only the history
knows" are read by no step. Clocks, process ids, UUIDs, nonces and tokens are parameters; a
fresh one differs from every earlier one.

## Model

| member | source | states |
|---|---|---|
| ArchiveLock.MutualExclusion | vscode-ext/src/notepad-archive-file.ts:20-68 | in every interleaving of acquires, releases, reapers and crashes by any number of processes, two live holders are the same call, and the lock directory then holds that call's file and nothing else |
| ArchiveLock.HolderStays | vscode-ext/src/notepad-archive-file.ts:20-68 | a holder that stays alive and has not begun its release holds the lock through every later state, whatever delayed reapers and releasers do |
| ArchiveLock.ReleaseFindsOwnFile | vscode-ext/src/notepad-archive-file.ts:31-36 | the unlink of a release always finds the releaser's own file, and never another holder's |
| ArchiveLock.DeadHolderIsReplaced | vscode-ext/src/notepad-archive-file.ts:41-58 | from every reachable state whose lock belongs to a dead process, a refused contender gets the lock by its own next six steps |
| ArchiveLock.FreeLockIsTaken | vscode-ext/src/notepad-archive-file.ts:20-37 | in every run, a call that has just begun and finds no lock, or an empty one, holds it after its own next five steps, its file alone there and its candidate gone |
| ArchiveLock.ReleaseFrees | vscode-ext/src/notepad-archive-file.ts:31-36 | in every run a holder that releases leaves no lock directory |
| ArchiveLock.LoserLeavesNoTrace | vscode-ext/src/notepad-archive-file.ts:56-67 | in every run a call that gives up or throws takes its own candidate away and touches nothing else |
| ArchiveLock.RunKeepsInv | vscode-ext/src/notepad-archive-file.ts:20-68 | every reachable state has at most one file in the lock directory, private candidates, and reapers that name only dead owners |
| ArchiveStore.Linearizable | vscode-ext/src/notepad-archive-file.ts:70-126 | the versions installed are a legal serial history of the archive, the main path is its last version, and every answer is that history's answer at one point inside its own transaction; what that answer is, in the bytes read, is `LoadAnswers`, `SaveConflicts` and `ResetAndMutateDecide` |
| ArchiveStore.LoadAnswers | vscode-ext/src/notepad-archive-file.ts:106-116 | in every run a load answers the text in the bytes at the main path with the digest of those bytes, and nothing exactly where they are a tombstone |
| ArchiveStore.SaveConflicts | vscode-ext/src/notepad-archive-store.ts:65-74 | in every run a save answers a conflict exactly when neither nothing is stored and it expected nothing, nor something is and it named the digest of those very bytes; otherwise it goes on to write its own text |
| ArchiveStore.ResetAndMutateDecide | vscode-ext/src/notepad-archive-store.ts:85-91 | in every run a reset goes to quarantine only bytes whose text is no archive, and a mutation goes on only from an archive or from nothing |
| ArchiveStore.FirstSave | vscode-ext/src/notepad-archive-file.ts:99-126 | after a load that answered nothing, no version having been installed since, a save that expects nothing goes on to write, and committed it answers ok as the very next version |
| ArchiveStore.SaveCanRun | vscode-ext/src/notepad-archive-file.ts:117 | nothing stands in the way of that: from any state in which a save meets the version there, its own next three steps are allowed and end in ok |
| ArchiveStore.RealTimeOrder | vscode-ext/src/notepad-archive-file.ts:89-126 | a transaction begun after another has answered takes effect after it |
| ArchiveStore.RevisionNeverRecurs | vscode-ext/src/notepad-archive-file.ts:70-87 | no two versions of a history are the same bytes, so a revision names one version for ever |
| ArchiveStore.SaveReplacesWhatWasLoaded | vscode-ext/src/notepad-archive-store.ts:64-83 | a save that succeeds with the revision a load answered installs the version directly after the one that load returned: no update is lost |
| ArchiveStore.LegacyImportedOnce | vscode-ext/src/notepad-archive-file.ts:99-110 | the legacy value enters only as the first version of an archive that had no file |
| ArchiveStore.UnreadableBytesSurvive | vscode-ext/src/notepad-archive-store.ts:85-99 | at every point, hence every crash point of a reset, each unreadable version is at the main path, in quarantine, or replaced by a save that named it |
| EnrollOffer.RedeemedAtMostOnce | relay/src/enroll-token.ts:58-86 | over every interleaving of attempts and republications a generation of the offer is redeemed by one attempt at most, and only with the token in it |
| EnrollOffer.RedeemedIsNeverAtThePath | relay/src/enroll-token.ts:107-139 | a redeemed generation is at the path in no later state |
| EnrollOffer.RightTokenRedeems | relay/src/enroll-token.ts:58-139 | left alone, an attempt with the token of the offer at the path redeems that very offer and leaves none there |
| EnrollOffer.OnlyTheTokenIsAccepted | relay/src/enroll-token.ts:58-86 | an attempt gets past its check only with the token that is in the offer at the path at that moment |
| EnrollOffer.OfferIsTakenAway | relay/src/enroll-token.ts:88-101 | left alone, taking the offer away leaves the path empty, the offer that was there removed and no other |
| EnrollOffer.WrongClaimIsPutBack | relay/src/enroll-token.ts:155-171 | over whole runs, a wrong claim is given back by one link: it is dropped exactly when that link found the path occupied or was refused for any other reason, and otherwise the path named it again |
| EnrollOffer.DroppedWasRejected | relay/src/enroll-token.ts:155-171 | nothing is ever dropped but a wrong claim whose link was so rejected |
| EnrollOffer.RefusedLinkLosesTheNewest | relay/src/enroll-token.ts:155-171 | a run in which a refused link deletes the newest offer and leaves the path empty |
| EnrollOffer.TwoAttemptsCouldDropTheNewest | relay/src/enroll-token.ts:107-171 | a run, of attempts that overlap, in which a newer offer is dropped for an older one put back before it |
| EnrollOffer.RunKeepsInv | relay/src/enroll-token.ts:58-171 | every generation ever published is at the path, with exactly one attempt, replaced or removed, and in no two of these |
| Enrollment.TokenEnrollsOnlyTheFirstBurrow | relay/src/state.ts:497-516 | in every run at most one row is authorised by an enroll token, it is the first row ever written, and its attempt redeemed an offer holding that token |
| Enrollment.FirstBurrowEnrolls | relay/src/state.ts:497-516 | left alone, the offer's token enrolls the first Burrow there is: its row is written and the offer is used up |
| Enrollment.PasswordEnrolls | relay/src/app.ts:879-900 | once a file has been written the password enrolls without an offer, and leaves any offer as it is |
| Enrollment.PasswordEnrollsFirst | relay/src/app.ts:879-900 | the first Burrow by password is written with the offer taken away before |
| Enrollment.DroppedForANewer | relay/src/enroll-token.ts:155-171 | because enrollments never overlap, an offer is dropped as a wrong claim only when its link was refused or when the path held one published after it |
| Enrollment.NeverTwoAtOnce | relay/src/state.ts:497-516 | an enrollment begins only when none is under way, whatever was asked for and however the ones before ended |
| MutateChain.OneAtATime | relay/src/state.ts:193-202 | in every run no two mutations run at once |
| MutateChain.InOrder | relay/src/state.ts:193-202 | a mutation that has begun finds every one asked for before it over |
| MutateChain.NeverWedged | relay/src/state.ts:193-202 | while one waits, one runs or the next may begin, whether those before resolved or were rejected |
| Enrollment.RunKeepsInv | relay/src/app.ts:879-900 | a token reaches the write only while nothing was ever persisted and after its own redemption |
| RelayHub.BurrowHearsConversations | relay/src/relay.ts:131-197 | in every run, what one Burrow connection has been told about one Client is a sequence of conversations: an init, any e2e frames, then client-gone |
| RelayHub.ScanMeaning | relay/src/relay.ts:243-289 | the automaton of the proof accepts a trace exactly when each frame but an init continues an unfinished conversation |
| RelayHub.RetiredSocketIsSilent | relay/src/relay.ts:104-141 | a connection displaced, closed or unregistered is handed nothing for the rest of the run and never becomes current again |
| RelayHub.DeliveriesComeFromTheInitConnection | relay/src/relay.ts:143-172 | safety of delivery: a Client is handed a frame only from a current connection that is the very one its latest init went to; that it is handed every such frame is `BurrowFrameIsHeard` |
| RelayHub.BurrowFrameIsHeard | relay/src/relay.ts:143-172 | of a Burrow's frame every socket hears exactly that frame when the sending connection is the current one, the frame is a usable reply and the Client it names is there, bound to that Burrow and owns the socket, and nothing otherwise; nothing else in the hub changes |
| RelayHub.UnregisterBurrowIsHeard | relay/src/relay.ts:179-197 | the end of a current connection takes exactly its Burrow off, unbinds exactly the Clients bound to it, and tells the socket of each once; the end of any other is nothing |
| RelayHub.CloseBurrowIsHeard | relay/src/relay.ts:104-110 | a revoked Burrow goes as if its connection had ended, and its socket alone is closed as revoked |
| RelayHub.RegisterBurrowIsHeard | relay/src/relay.ts:131-141 | a new connection is the current one with nothing said on it; of the one it replaces the socket is closed, and exactly the Clients bound there are unbound and told |
| RelayHub.UnregisterClientIsHeard | relay/src/relay.ts:298-305 | the end of a Client's own connection takes exactly it off, and only the Burrow it is bound to is told, once |
| RelayHub.CloseExpiredIsHeard | relay/src/relay.ts:231-241 | each socket hears of a sweep, in the order of the walk, its own closing or one client-gone for each Client gone from it, and nothing else |
| RelayHub.ClientsStayUnderCap | relay/src/relay.ts:215-223 | the cap on Client sockets holds in every reachable state |
| RelayHub.SweepRemovesTheExpired | relay/src/relay.ts:231-241 | a sweep removes exactly the Clients it visits whose session is over and changes no other |
| RelayHub.RunKeepsInv | relay/src/relay.ts:131-347 | every bound Client's Burrow is connected by the connection its init went to, and current Burrows have open conversations with exactly the Clients bound to them |
| RelayHub.RunKeepsOrder | relay/src/relay.ts:190-197 | the walk over the Client map meets every Client and no one else, in every run |
| RelayHub.RelayHub.Register | relay/src/relay.ts:131-141 | the whole new state, with every Client of the displaced connection told and unbound by the loop |
| RelayHub.ClientFrameIsHeard | relay/src/relay.ts:243-289 | of a Client's frame the Burrow it names, the one it leaves, or the Client itself hears exactly its one frame and every other socket nothing; only an init to a connected Burrow moves a binding, and only its own |
| RelayHub.RelayHub.Sweep | relay/src/relay.ts:231-241 | the whole new state after the loop, and the number closed |
| SetupTokens.TokensAreConserved | relay/src/app.ts:728-796 | over any interleaving of begin, finish, retire, mint and failure a token is live, held by a finish or a registered passkey at most once in all; its expiry never changes; no Burrow exceeds its cap |
| SetupTokens.ExpiryNeverChanges | relay/src/setup-token.ts:60-114 | whoever has a token at any two moments of a run, live or held, has it for one Burrow and with one expiry |
| SetupTokens.TrimKeeps | relay/src/setup-token.ts:134-143 | trimming leaves a Burrow its newest rows up to the limit, none kept dying before one dropped, and touches no other Burrow's |
| SetupTokens.IssueKeeps | relay/src/setup-token.ts:60-66 | a mint holds its own token and costs another Burrow nothing that is alive |
| SetupTokens.IssueLeaves | relay/src/setup-token.ts:60-66 | a mint leaves, in order, exactly the live tokens of other Burrows and those of its own outlived by fewer than seven, and adds its own for 300 seconds |
| SetupTokens.RestoreKeeps | relay/src/setup-token.ts:108-114 | giving back restores a live token with its own expiry, within the cap, at no other Burrow's cost |
| SetupTokens.RestoreLeaves | relay/src/setup-token.ts:108-114 | giving back leaves exactly what a mint would, and the token as it was; a dead one changes nothing |
| SetupTokens.SpendTakes | relay/src/app.ts:728-796 | in every run a finish holds the token exactly when it was there and alive, and it is then no longer there |
| SetupTokens.FailureGivesBack | relay/src/app.ts:728-796 | in every run a finish that fails or throws has given its token back as it was while it lives, has registered nothing and holds nothing |
| SetupTokens.ScannableAgain | relay/src/app.ts:728-796 | so the same token can be spent at once by any other finish, for the same Burrow and with the same expiry |
| SetupTokens.ConsumeKeeps | relay/src/setup-token.ts:89-98 | spending removes the token whatever it answers, answers it exactly when it was live, and touches no other |
| SetupTokens.PeekKeeps | relay/src/setup-token.ts:74-83 | looking answers exactly the live tokens and loses none of them |
| SetupTokens.SetupTokenIssuer.TrimBurrow | relay/src/setup-token.ts:134-143 | deleting the oldest rows one by one is the trimming of the whole map |
| SetupTokens.SetupTokenIssuer.RestoreToken | relay/src/setup-token.ts:108-114 | the whole new map after the prune and trim loops |
| PresenceNonces.RedeemedAtMostOnce | relay/src/app.ts:399-411 | in every run a nonce is answered only before it expires, with the binding it was remembered with, and no later request for it gets anything |
| PresenceNonces.RememberedIsAnswered | relay/src/app.ts:373-411 | a nonce spent next after it was remembered is answered with its own binding exactly when two minutes have not gone by, and is gone then |
| PresenceNonces.RememberCosts | relay/src/app.ts:373-397 | remembering holds its nonce and changes none it keeps; the writer loses only its oldest and only when left at its cap; another session loses only by losing all, as the one that wrote longest ago, to a writer that held none, in a store left full |
| PresenceNonces.ConsumeRefines | relay/src/app.ts:399-411 | on the flat map from nonce to holder, spending removes exactly that nonce and answers it exactly when it is there and alive |
| PresenceNonces.RunKeepsInv | relay/src/app.ts:353-437 | both caps, one holder a nonce, buckets in order of last write and entries in order of age, in every run |
| PresenceNonces.PresenceNonceStore.RememberNonce | relay/src/app.ts:373-397 | the whole new list of buckets, and an index that is still exactly the owner of each nonce held |
| PresenceNonces.PresenceNonceStore.ConsumeNonce | relay/src/app.ts:399-411 | looking up and deleting through the index is spending on the flat map, and the index still agrees |
| PushSubscriptions.CapKeeps | relay/src/state.ts:753-774 | what is left is rows of the file in their order with the new row last, both caps met, and of one Burrow none left, but for the new row, older than one gone |
| PushSubscriptions.CapDropsOnlyExcess | relay/src/state.ts:753-774 | nothing goes when both caps were met, and while the file's total was met each Burrow is cut to exactly its cap |
| PushSubscriptions.CapCutsExactly | relay/src/state.ts:753-774 | a row but the new one is dropped exactly when, with every older one that is dropped gone, the file or its Burrow still has too many |
| PushSubscriptions.UpsertMoves | relay/src/state.ts:653-684 | what must be absent: every row of the delivery carries the presented endpoint, no row carries one it moved off, and the new row is the only one with its key; what must stay is `UpsertKeeps` |
| PushSubscriptions.UpsertKeeps | relay/src/state.ts:653-684 | before the new row come, in order, exactly the rows of the file with another key whose endpoint is none that a row of the delivery moves off; where that exceeds a cap, what the cap leaves of them, and no row of any other kind |
| PushSubscriptions.UpsertKeepsKeys | relay/src/state.ts:653-684 | keys that were unique stay unique |
| PushSubscriptions.UpsertAgain | relay/src/state.ts:605-684 | the same request again, the enrolled set unchanged, absent or not listing its Burrow, leaves the same rows but for their time and answers the same Burrows |
| PushSubscriptions.EndpointBurrowsMeaning | relay/src/state.ts:674-683 | the Burrows answered are exactly those left with a row at the presented endpoint and key, each once |
| PushSubscriptions.EndpointBurrowsInOrder | relay/src/state.ts:674-683 | they are answered in the order of their first such rows |
| PushSubscriptions.LiveRows | relay/src/state.ts:605-617 | a reader finds exactly the well-formed rows of enrolled Burrows, in order, or of all where no one can say which are enrolled |
| PushSubscriptions.CapSubscriptions | relay/src/state.ts:753-774 | the loop with its running counts keeps exactly the rows the specification of the cap keeps |
| PushSubscriptions.PushSubscriptionStore.Upsert | relay/src/state.ts:653-684 | the file written is what `UpsertKeeps` and `CapCutsExactly` describe of the rows listed, and the Burrows answered are those of `EndpointBurrowsMeaning` |
| PushSubscriptions.PushSubscriptionStore.RemoveEndpoints | relay/src/state.ts:715-724 | afterwards exactly the listed rows at other endpoints are listed, in order, and nothing is written when none goes |
| StateCache.AnswersAnInstantOfTheCall | relay/src/state.ts:147-166 | with readers, rewrites and hand edits interleaved, a cached read ends in what the file was at some instant between its beginning and its end |
| StateCache.RunKeepsInv | relay/src/state.ts:147-181 | what is cached was read no earlier than the version whose key it is filed under |
| StateCache.BurrowStore.ReadCached | relay/src/state.ts:147-166 | from every state of the cache the answer is what the file is, and the store steps as the interleaved model does; no array handed out is disturbed |
| StateCache.ListOfIs | relay/src/state.ts:433-451 | the enrolled set is unknown only for text that does not parse; it is the valid rows, in order, of an array, and none of anything else or of no file |
| StateCache.BurrowStore.List | relay/src/state.ts:433-451 | that list, whatever is cached, as a new array that disturbs none handed out |
| StateCache.BurrowStore.Enroll | relay/src/state.ts:433-516 | whatever is cached, the file ends as its own valid rows and the new one, or as it was at the limit or when it does not parse; no array handed out is disturbed |
| StateCache.BurrowStore.Serve | relay/src/state.ts:147-181 | over any sequence of reads, enrollments and edits the file ends as those changes to the file alone leave it, and every array handed out before is as it was |
| StateCache.EnrollmentsAdd | relay/src/state.ts:497-516 | enrolling one after another loses none: the rows listed before, then the new ones in order, as far as the limit of 32 |
| PeerLink.HandlesNameForever | vscode-ext/src/peer-link.ts:371-388 | a handle names the same PTY of the same window for ever, through closing and binding again, and no other PTY is given it |
| PeerLink.TablesAgree | vscode-ext/src/peer-link.ts:371-448 | the two route tables have the same keys, sinks exist only for routes, a waiting subscription only for a route with sinks, and the two pending maps are inverse |
| PeerLink.NoDataAfterExit | vscode-ext/src/peer-link.ts:680-697 | a sink told of an exit gets nothing more of that route, data or exit, unless it joins again in between |
| PeerLink.DataReachesTheWatchers | vscode-ext/src/peer-link.ts:681-697 | data and exits of a route reach exactly the sinks on it at that moment |
| PeerLink.FrameFindsItsRoute | vscode-ext/src/peer-link.ts:391-397 | a frame about a PTY comes upon that PTY's one standing route and no other |
| PeerLink.FrameActsOnItsRoute | vscode-ext/src/peer-link.ts:681-697 | in every run data about a PTY goes to the sinks of its standing route as they are, an exit closes that route and tells them, and with no standing route either is nothing |
| PeerLink.SubscribeDoes | vscode-ext/src/peer-link.ts:523-544 | in every run the first subscribe of a standing route puts a new id of its window among those that wait, a later one adds the sink and no id, and one to a closed route is only refused |
| PeerLink.SubscribeSettles | vscode-ext/src/peer-link.ts:410-448 | a subscribe promise settles by its owner's acknowledgement, the exit, the window's going, the last sink's leaving or the timer, by nothing else, and stays settled; the timer can always come; that one waits at all is `FirstSubscribeWaits` |
| PeerLink.FirstSubscribeWaits | vscode-ext/src/peer-link.ts:410-448 | in every run the id that the first subscribe of a route adds waits, for that window and that route, until the first of those five things, and is settled for good from then on |
| PeerLink.AskSettles | vscode-ext/src/peer-link.ts:335-359 | a question is settled once, by the window it was put to, that window's going or its timer, and by no other window's answer |
| PeerLink.RunKeepsInv | vscode-ext/src/peer-link.ts:371-719 | all the tables and every sink's log stay in step over every run |
| PeerLink.PeerLinkBroker.DropClient | vscode-ext/src/peer-link.ts:606-634 | the whole new tables after both loops: every route of the window closed, every question to it answered with nothing |
| PeerLink.DropDoes | vscode-ext/src/peer-link.ts:606-634 | exactly the window's routes go, each told to its sinks, and exactly the questions put to it |
| PeerLink.PeerLinkBroker.RemoteSubscribe | vscode-ext/src/peer-link.ts:523-544 | on a standing route without sinks the next id is answered and waits for that window and route; with sinks the answer is whoever waits, if anyone still does, and no id is added; on a closed route only the refusal is logged |
| PeerLink.PeerLinkBroker.OnExit | vscode-ext/src/peer-link.ts:688-697 | the whole new tables after the matching routes are closed |
| PeerLink.PeerLinkBroker.RemoteUnsubscribe | vscode-ext/src/peer-link.ts:546-561 | exactly this sink leaves and the route stands; while others watch whoever waits goes on waiting, and when the last has left no one is on the route and the one that waited is let go |
| PeerLink.PeerLinkBroker.ForgetPeerRoutes | vscode-ext/src/peer-link-protocol.ts:140-148 | exactly the routes of the window are deleted and listed, each once |
| FrameDecoder.DecodesTheStream | vscode-ext/src/peer-link-protocol.ts:102-131 | however a stream is cut, what is yielded is exactly its whole lines' frames in order, but for each line that stood unterminated past the cap at the end of some chunk, and what is held is the unterminated line within the cap |
| FrameDecoder.ChunkingIsInvisible | vscode-ext/src/peer-link-protocol.ts:102-131 | when every whole line fits, two ways of cutting the same stream yield the same |
| FrameDecoder.OverlongDependsOnChunking | vscode-ext/src/peer-link-protocol.ts:102-131 | every over-long line arrives together with its newline and is lost ahead of it: only the chunking decides |
| FrameDecoder.RoundTrip | vscode-ext/src/peer-link-protocol.ts:76-78 | encoded frames that fit come back in order and alone however the characters arrive, and leave the decoder as new |
| FrameDecoder.FrameDecoder.PushChunk | vscode-ext/src/peer-link-protocol.ts:102-131 | a push yields exactly what the longer stream should have yielded and had not, and keeps the buffer within the cap |
| PtyBuffers.SinceMarkIsExact | vscode-ext/src/pty-manager.ts:158-184 | reading from a mark gives exactly what came after it, for as long as that fits the cap |
| PtyBuffers.ReplaysEachOnce | vscode-ext/src/pty-manager.ts:133-140 | over any run of writes and replays, the answers are stretches of one stream, each beginning no sooner than the one before ended, and exactly there when all that came between fits the cap |
| PtyBuffers.ReplayAnswers | vscode-ext/src/pty-manager.ts:133-140 | in every run a replay answers exactly when something was written since the last one, be it empty: all of it while it fits the cap, and otherwise its end that is held |
| PtyBuffers.PtyManager.GetReplayData | vscode-ext/src/pty-manager.ts:133-140 | the answer is that of the run, and the generation counts as replayed |
| PtyBuffers.RecentIsHeld | vscode-ext/src/pty-manager.ts:50-60 | whatever came last in whole chunks is held whole so long as it fits the cap |
| PtyBuffers.HeldIs | vscode-ext/src/pty-manager.ts:50-60 | what is held is exactly the longest stretch of whole chunks at the end that fits, or of a chunk too long by itself, while none has followed, the end that fits |
| PtyBuffers.HeldIsSuffix | vscode-ext/src/pty-manager.ts:74-90 | what is held is the end of the whole stream, within the cap, after any writes |
| PtyBuffers.TrimChunks | vscode-ext/src/pty-manager.ts:50-60 | the loop drops exactly the chunks of the specification and its count stays the length held |
| PtyBuffers.PtyManager.GetScrollbackSince | vscode-ext/src/pty-manager.ts:167-184 | the answer is the whole output from the later of the mark and the oldest held character to the end |
| PtyBuffers.PtyManager.BufferData | vscode-ext/src/pty-manager.ts:74-90 | both buffers go on being what is held of the output of this generation, and a killed PTY's output is dropped |
| PtyCore.ReplayIsTheEnd | standalone/sidecar/pty-core.js:1134-1149 | in every run the replay of a live PTY is exactly the last 200000 characters its own generation printed |
| PtyCore.GoneUntilSpawned | standalone/sidecar/pty-core.js:1209-1232 | in every run, from a kill or an exit on an id has no PTY and no repaint until one is spawned under it, and from a kill on no replay either, whatever its old PTY still prints |
| PtyCore.SizeIsOrWillBe | standalone/sidecar/pty-core.js:1172-1201 | a live PTY has the last size asked of it with no timer pending, or one timer pending made for it and that size, exactly when that is a size a terminal has |
| PtyCore.RefusedResizeStrands | standalone/sidecar/pty-core.js:1172-1179 | a run in which a resize to no size, in the middle of a repaint, leaves the PTY a row short with no timer |
| PtyCore.FireRestores | standalone/sidecar/pty-core.js:1181-1195 | a timer that fires changes a PTY only while pending, and then the live one it was made for to the last size asked of it, which it does wherever the process lives and takes that size |
| PtyCore.StaleTimersAreSilent | standalone/sidecar/pty-core.js:1083-1086 | a timer set before a later request, a new generation, an exit or a kill changes nothing whenever it fires, even if its cancelling failed |
| PtyCore.RecordedText | standalone/sidecar/pty-core.js:1141-1147 | recording a chunk after a text of which the last 200000 characters are held leaves the last 200000 of the longer text |
| PtyCore.Record | standalone/sidecar/pty-core.js:1141-1147 | the loop in place computes that shedding and cutting |
| PtyCore.PtyManager.ResizePty | standalone/sidecar/pty-core.js:1172-1201 | the size is set and no timer pends, or it is bounced and one pends for this PTY and this size, or it is refused and none pends; no other PTY or timer is touched |
| Ipv6.CompressIpv6 | standalone/sidecar/pty-core.js:732-752 | the run written as a double colon is the leftmost longest of two or more zero groups, and the text names the same eight groups (section 2.2 of RFC 4291, sections 4.2.2 and 4.2.3 of RFC 5952) |
| Ipv6.ParseHexIpv6 | standalone/sidecar/pty-core.js:716-728 | the text names the groups read with each word's bytes reversed |
| Ipv6.KernelTextReadsBack | standalone/sidecar/pty-core.js:711-728 | what is read from the kernel's text of an address is that address |
| Ipv6.HexRoundTrip | standalone/sidecar/pty-core.js:747 | a group's digits read back, are at most four, and have no leading zero |
| SessionStore.CacheAgrees | standalone/src/tauri-session-store.ts:45-96 | at most one save is in the air, the cache is what is queued behind it or else what it carries, and idle after a save the disk took, disk and cache agree |
| SessionStore.WaitersLeaveIdle | standalone/src/tauri-session-store.ts:45-50 | waiters are let go only into an idle store whose cached value was attempted, all of them together |
| SessionStore.SavesNeverOverlap | standalone/src/tauri-session-store.ts:66-77 | a save starts only with none in the air or in the step that ends one |
| SessionStore.BurstCostsOneSave | standalone/src/tauri-session-store.ts:66-96 | a burst of any length during one save costs one further save, of its latest value |
| SessionStore.SavedIsOnDisk | standalone/src/tauri-session-store.ts:52-96 | hydrated with what is on disk, an idle store counts as saved exactly what is on disk, whatever failed in between |
| SessionStore.SetReachesDisk | standalone/src/tauri-session-store.ts:66-77 | so a value set while idle is saved unless it is at once the value cached and the value on disk |
| SessionStore.FailedIsSavedAgain | standalone/src/tauri-session-store.ts:66-77 | a value whose save failed is saved again when it is set again |
| SessionStore.RunKeepsInv | standalone/src/tauri-session-store.ts:45-96 | the saved value, the queue, the waiters and the flight agree over every run of settings, successes and failures |
| SessionStore.SettlingDecides | standalone/src/tauri-session-store.ts:83-95 | in every run, a save that settles leaves the store idle with every waiter let go and the cached value attempted, or hands the cached value to the one save in the air and lets no one go |
| SessionStore.TauriSessionStore.OnSettled | standalone/src/tauri-session-store.ts:83-95 | the queued value is saved next and every waiter stays, or the store is idle and every waiter is let go; the cache is not touched |
| DocsInline.ParseInline | website/scripts/docs-parser.js:125-228 | parsing ends on every text; what comes out spells the text stretch by stretch, and an error says that nothing does; fully escaped text comes out as itself |
| DocsInline.SpeltOnce | website/scripts/docs-parser.js:125-228 | no text is spelt by two different node lists, so the parse is the only reading |
| DocsInline.ParseSpan | website/scripts/docs-parser.js:147-220 | at each place the one construct that starts there, or none exactly where none does, or an error exactly where what starts can be no construct |
| DocsInline.EscapeReadsBack | website/scripts/docs-parser.js:140-145 | any text, a backslash put before each punctuation mark, is read as itself |
| DocsInline.MatchLink | website/scripts/docs-parser.js:258-279 | the label ends at the first bracket that balances and the destination follows at once; none is found only where there is none |
| DocsInline.MatchDestination | website/scripts/docs-parser.js:240-255 | the destination ends at the first parenthesis closing more than was opened, titles and what backslashes hide left out; none is found only where there is none |
| DocsInline.TargetReadsBack | website/scripts/docs-parser.js:274-278 | every address and title written with a gap between are told apart again |
| InlinePrinter.InlineReadsBack | website/scripts/docs-parser.js:125-279 | a text of escaped words, code between runs of backticks of any length, emphasis and strong text by either mark, links and images whose addresses hold balanced parentheses and whose titles hold any, and allowed tags, nested to any depth, is read as exactly those nodes and as nothing else |
| InlinePrinter.SnakeCaseIsText | website/scripts/docs-parser.js:211-219 | underscores within words are text: such a text is read as itself and as nothing else |
| InlinePrinter.LoneMarkIsText | website/scripts/docs-parser.js:147-226 | a mark that nothing after it closes, or that opens nothing, is text with the words after it |
| InlinePrinter.TagHasNoReading | website/scripts/docs-parser.js:164-178 | a tag other than an image's, or an image's that is not closed or not allowed, leaves the text without a reading whatever words stand before it and whatever follows |
| DocsParser.ParseMarkdown | website/scripts/docs-parser.js:404-524 | parsing ends on every input; what comes out is the one document the lines are, and an error says that they are none; what documents lines are is what `DocsPrinter` is about |
| DocsParser.ReadsOnce | website/scripts/docs-parser.js:404-524 | no lines are two documents |
| DocsParser.ParseBlock | website/scripts/docs-parser.js:412-520 | the block at a line, of the first form the line has, and all its lines; an error only where nothing is a block |
| DocsParser.ParseList | website/scripts/docs-parser.js:540-599 | parsing ends; the items and what belongs to each are the only ones the lines can be, a nested list always has a parent item, and the list stops only where nothing goes on with it |
| DocsParser.ItemsOnce | website/scripts/docs-parser.js:540-599 | from one line no two lists can be read, whatever nests in them |
| DocsParser.ParseHanging | website/scripts/docs-parser.js:549-580 | a deeper item begins a nested list, and past blank lines an indented line begins blocks of its own, of the item before |
| DocsParser.TakeItem | website/scripts/docs-parser.js:582-594 | an item's own text runs to the first line that ends it, and an underline there is an error |
| DocsParser.ParseParagraph | website/scripts/docs-parser.js:508-520 | a paragraph takes the lines up to the first that ends it, reads their trimmed text, and fails exactly over an underline or text that has no reading; which lines end it is what `DocsPrinter` is about |
| DocsParser.ParseTable | website/scripts/docs-parser.js:456-468 | a row for each following line with a pipe, each cell read on its own, and an error only when some cell has no reading |
| DocsParser.RowReadsBack | website/scripts/docs-parser.js:346-359 | cells written between pipes, their own pipes behind backslashes, come back as they were |
| DocsParser.ParseFence | website/scripts/docs-parser.js:417-434 | the body is the lines as they are up to the first that closes the fence, and an unclosed fence is an error |
| DocsParser.TakeQuote | website/scripts/docs-parser.js:470-484 | a quote takes the lines quoted or lazily going on, less their angles, and is smaller than they are |
| DocsParser.TakeIndented | website/scripts/docs-parser.js:559-566 | the lines as far in as the first, less that indent, smaller than the lines of the list |
| DocsParser.EmptyDocument | website/scripts/docs-parser.js:411-415 | a document is empty exactly when no line has text |
| DocsParser.BodyIsItsLines | website/scripts/docs-parser.js:482-483 | a quote's or an item's lines, joined and parsed as a text of their own, are parsed as those lines |
| DocsPrinter.WrittenReadsBack | website/scripts/docs-parser.js:404-599 | a text of paragraphs of several lines, headings, rules, code, tables, quotes and lists, nested to any depth, a quote's last lines lazy or not, written with no blank line where none is needed, so that a heading, item, quote, fence, table or rule ends the text or the quote above it at once, is read as exactly those blocks and as nothing else |
| DocsPrinter.TagIsNoDocument | website/scripts/docs-parser.js:503-512 | under a line that begins a span of code a tag, of a name that begins with no i, ends that text and begins no block: the whole is no document, whatever follows and although the span might have closed in the tag |
| DocsPrinter.ImageGoesOn | website/scripts/docs-parser.js:311-318 | an image's tag under a line of words is read as the same paragraph's, and as nothing else |
| DocsPrinter.UnderlinedIsNoDocument | website/scripts/docs-parser.js:513-515 | words with a line of dashes or equals signs under them are no document, whatever follows |
| DocsPrinter.UnderlinedItemIsNoDocument | website/scripts/docs-parser.js:582-594 | nor is a list whose item has such a line, further in, under it |
| DocsPrinter.RuleBeforeItem | website/scripts/docs-parser.js:449-454 | a rule of dashes or stars with spaces between is a rule alone, though the line begins as an item does |
| DocsPrinter.TableBeforeQuote | website/scripts/docs-parser.js:456-468 | a line over a delimiter row of as many cells is a table's whatever else it begins as |
| DocsPrinter.HeadingBeforeTable | website/scripts/docs-parser.js:436-447 | a heading is one whatever stands under it |
| DocsPrinter.BareTableReadsBack | website/scripts/docs-parser.js:346-386 | a header and its delimiter row of two columns or more need no outer pipes to be read as their table |
| DocsPrinter.HeadingKeepsItsWords | website/scripts/docs-parser.js:437 | a heading keeps its escaped words exactly when they do not end in a hash: that one is dropped, backslash or not |

## Left out

Assumptions shared by several modules:

- Cryptography, WebAuthn, VAPID, the peer handshake and the HTTP routing: library calls and plumbing; tokens, nonces and digests are fresh or injective values.
- JSON, the archive's own format and the shape checks on rows: parameters, or a print and a parse that are inverse.
- File modes, fsync and Windows rename errors: renames are POSIX renames over nothing or an empty directory, and a reused process id reads as alive.
- Identity of map entries in `SetupTokens`, `PresenceNonces`, `PushSubscriptions` and `PtyBuffers`: an entry is a value in its container, so no alias of it is followed; the cached array of `StateCache` is the one alias that matters and is an object there.
- Step relations in place of imperative code for `ArchiveLock`, `ArchiveStore`, `EnrollOffer`, `Enrollment` and `StateCache.Step`: their code runs one await at a time among other processes, which no single method body can show; so too for `MutateChain`.
- Callbacks that call back: a sink or waiter that subscribes, unsubscribes or sets again from inside its own notification is not followed.

What the code does that the models do not:

- ArchiveStore.Linearizable: an answer that a failing release of the lock turns into an error is not modelled, nor the shortcut for a mutation that changes nothing; reading, checking and mutating the archive's text are parameters.
- ArchiveLock.MutualExclusion: the candidate of a crashed process stays on disk for ever, as in the code.
- Enrollment.TokenEnrollsOnlyTheFirstBurrow: the file of enrolled Burrows is not itself deleted by hand; its rows may be. The limit on rows is one failing step here, and exact in `StateCache`.
- RelayHub.RunKeepsInv: the text of envelopes, the opaque payloads and the socket library are not modelled; a malformed frame is an input of its own.
- SetupTokens.TokensAreConserved: what else a finish checks is one failing or succeeding step.
- PresenceNonces.RememberCosts: a nonce is new when it is remembered, being 256 random bits.
- PushSubscriptions.UpsertAgain: nothing but the two requests writes the file in between.
- PushSubscriptions.CapKeeps: the cap is not globally minimal in the code, so that is not claimed.
- StateCache.AnswersAnInstantOfTheCall: a stat key is new at every change, and one read sees one version of the file.
- StateCache.BurrowStore.Serve: the class takes one call at a time, as the mutex has it for enrollments; reads that interleave are the business of the step relation.
- PeerLink.RunKeepsInv: contention for the socket, the client side, and what is sent to peers are left out; a route may be bound to a window already dropped, as in the code, so no route's owner is claimed connected.
- FrameDecoder.DecodesTheStream: characters, not the bytes under them.
- PtyBuffers.HeldIsSuffix: trimming drops whole chunks, so less than the cap may be held, as in the code.
- PtyBuffers.PtyManager.GetScrollbackSince: an infinite mark is any mark past the end.
- PtyCore.SizeIsOrWillBe: nothing is claimed of a PTY whose process has died with its exit undelivered, because resizing it throws; the native resize refuses a size without a column and a row and no other, and a shell starts on a terminal that has both; helper PTYs appear only as a spawn that is refused.
- Ipv6.ParseHexIpv6: the input is the 32 hexadecimal digits the kernel prints.
- SessionStore.CacheAgrees: hydration happens while idle, at boot, and a save that fails leaves the disk as it was, being a write beside it and a rename.
- DocsParser.ParseMarkdown: headings' ids and the slugger, the columns' alignment, an ordered list's first number, the mark on standalone images and the words and line of an error are left out.
- DocsPrinter.WrittenReadsBack: words are escaped, so the inline markup of `InlinePrinter` is not written within blocks, nor pipes within a cell; blocks stand at the margin, or at an item's own depth under the item, where they hold no blank line and begin with no list and no rule; every fence is closed, an unclosed one being no document.
- DocsInline.ParseInline: whether the attributes of an <img> tag are all allowed is a parameter, and the tag is kept as it is written.
- InlinePrinter.InlineReadsBack: the marks of an emphasis are nowhere within it, behind a backslash or in code, because the first of them closes it in the code; the brackets of a label are only those of links and images and those of escaped words.
- React components, message routers, platform adapters, shell detection, deadlines and the quit flow: small state or foreign calls that would only add easy members.
