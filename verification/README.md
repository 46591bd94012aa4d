# gomoqt: a verified model

gomoqt is a publish/subscribe media protocol (draft-lcurley-moq-lite-05) with a catalog format on top
(draft-ietf-moq-msf-01). This project models its concurrent state machines, index structures and codecs
in Dafny and proves what they promise.

Objects that the source updates in place are classes whose methods are proved against functions on
values. What the source runs concurrently is a step machine over those functions: one step is one
critical section, one stream write or one channel operation, and the theorems are about every run. Where
Go waits, reads a clock or writes to a stream that may fail, the outcome is a parameter of the step.

| module | what it models |
|---|---|
| Wrappers | optional values, facts about sequences |
| SettledGroups, Delivery | the interval set of settled groups; a track delivered from publisher to subscriber |
| SubscribeStream | the two ends of a subscribe stream: OK, DROP, END and REDIRECT |
| Segments, PathPattern, Grants | paths as segments, path patterns, and grants as the Go and TypeScript validators read them |
| AuthWriter, Rescope | the life of a token, the session's scope, and admission racing the rescope loop |
| Announcement | callbacks of an announcement: registered, stopped, run |
| AnnounceStream, AnnounceStreamRuns, AnnounceSends | an announce stream: the writer under concurrency, its log and its reader, and what the writer owes |
| Hops | hop lists in a network of relays |
| MuxPaths, AnnouncementTree, Mux | segment splitting, the prefix trie, and the mux with its index |
| VarintCodec, Messages, Replies | varints, control-message fields, SETUP, ANNOUNCE_BROADCAST, AUTH_OK and AUTH_ERROR |
| Frames | zigzag deltas, the frame buffer, and the frames of a group |
| Tracks, CatalogDelta, Catalog | catalog tracks, delta operations, and ApplyDelta |
| CatalogBroadcast | a catalog publisher and its subscribers |
| InitData | the init data list of the TypeScript catalog |

Things the code does that its documentation does not say, each with its exact condition below. The 64-bit
group counter wraps, and an END may then name a sequence below an opened group
(`SubscribeStream.WrapKeepsBoundIff`, `WrappedEnd`). So does the 64-bit generation of a token's expiry, after
2^64 grants (`AuthWriter.CallbackRevokesIff`). The pattern "/" matches by text what its one empty segment does
not (`PathPattern.RootPatternAgreesIff`). The prefix "//" is valid and has the segments of "/"; the initial
announcements are right all the same, because they are filtered by text (`MuxPaths.DoubleSlashIsRoot`,
`Mux.TrackMux.ServeAnnouncements`). A network with two nodes outside hop tracking has no bound on the way of an
announcement (`Hops.BoundedIff`). A change of a catalog's default namespace is refused when a track inherits it,
but not when a publish track does (`Catalog.PublishTrackMoves`). Serializing a catalog does not validate it, and
a dangling reference to init data can then come to stand for another track's payload
(`InitData.PayloadSurvivesIff`). An ended announcement is taken from the trie's nodes only up to the first one
that keeps something, and stays in those above (`AnnouncementTree.LingersIff`); init filters it out. A message
cut right behind its length reads as a clean end of the stream (`Messages.CutBody`).

`dafny verify dfyconfig.toml` checks the whole project.

## Model

| member | source | states |
|---|---|---|
| `Delivery.EachGroupOnceThenEof` | moqt/track_reader.go:192-267 | Over every order of arrival, if the cap of 1024 ranges was not hit: once AcceptGroup has returned io.EOF, and not by the grace, it has returned each opened group exactly once and nothing else, the whole log was read, and it stays io.EOF |
| `Delivery.EofIsComplete` | moqt/track_reader.go:214-240 | Short of the grace, io.EOF is decided only when every response was read and every opened group at or above the watermark of the settled set has arrived; the watermark is 0 exactly while the cap is not hit |
| `Delivery.NeverTwice` | moqt/track_reader.go:339-366 | At any time, past the cap too and whatever the publisher wrote, no group has been returned twice, and none that was not opened |
| `Delivery.NoGraceNeeded` | moqt/track_reader.go:192-267 | Once everything has arrived AcceptGroup never waits: it returns a queued group, or io.EOF without the grace |
| `Delivery.GraceEndsWaiting` | moqt/track_reader.go:228-240 | Before END the grace changes nothing; after it no pass waits |
| `Delivery.LatePassesDrain` | moqt/track_reader.go:189-240 | From every reachable state in which END was read, passes after the grace return exactly the queued groups in order and then io.EOF for ever, whatever is missing |
| `Delivery.EofReadAll` | moqt/track_reader.go:214-240 | io.EOF, by the grace or not, is decided only once every response was read and every queued group returned |
| `Delivery.ShortTrack` | moqt/track_reader.go:389-427 | A track of up to 2048 sequences stays below the cap in every order of arrival, so the results above hold for it outright |
| `Delivery.EveryRunCanFinish` | moqt/track_reader.go:192-267 | A run of a track of any length, not yet at io.EOF or there with nothing missing, can be carried on to io.EOF with exactly the opened groups returned |
| `Delivery.CanFinishIff` | moqt/track_reader.go:192-267 | A run can be carried on to io.EOF with exactly the opened groups returned if and only if it has not come to io.EOF with a group missing |
| `Delivery.EofIsForEver` | moqt/track_reader.go:214-240 | After io.EOF nothing changes; unless it came by the grace, and past the cap too, every group at or above the watermark has been returned |
| `Delivery.RunKeeps` | moqt/track_reader.go:192-267 | The invariant behind these holds in every reachable state, whatever the length of the track |
| `Delivery.Progress` | moqt/track_reader.go:192-267 | Until io.EOF some event is possible and brings it nearer, and io.EOF itself is reached only with nothing missing |
| `Delivery.FinalLogSettles` | moqt/track_writer.go:113-135 | From the resolved start to the END a publisher running its calls one after another has settled each sequence one way: opened, or dropped |
| `Delivery.FinalLogEnds` | moqt/track_writer.go:230-316 | The final log is what the calls wrote followed by an END naming the number of sequences used |
| `Delivery.TrackReader.EnqueueGroup` | moqt/track_reader.go:339-366 | Queues a group unless it is cancelled or the track has ended, and settles exactly that sequence |
| `Delivery.TrackReader.SettleDropped` | moqt/track_reader.go:368-378 | Settles exactly the dropped interval |
| `Delivery.TrackReader.AcceptOnce` | moqt/track_reader.go:192-267 | One pass of the accept loop: queue first, then sticky io.EOF, then the decision from start, end, settled set and grace; once END was read a pass after the grace never waits, and before END the grace changes nothing |
| `SettledGroups.SettledGroups.Add` | moqt/track_reader.go:404-427 | The in-place insert, merge and cap give the functional result, and the form (sorted, disjoint, not touching, at most 1024 ranges) is kept |
| `SettledGroups.SettledGroups.Covers` | moqt/track_reader.go:430-437 | For lo at most hi: true exactly when every sequence in lo..hi is in the union |
| `SettledGroups.MergedUnion` | moqt/track_reader.go:404-427 | Merging adds lo..hi to the union and nothing else |
| `SettledGroups.MergedNormal` | moqt/track_reader.go:404-427 | Merging keeps ranges sorted, disjoint and apart, and adds at most one |
| `SettledGroups.NormalUnique` | moqt/track_reader.go:389-402 | The form is canonical: equal unions are equal lists |
| `SettledGroups.HistoryNormal` | moqt/track_reader.go:389-427 | After any adds the ranges are in form and at most 1024 |
| `SettledGroups.HistoryExact` | moqt/track_reader.go:389-427 | After any adds: all that was added is in the set, and all of the set at or above the watermark was added; the watermark is positive exactly when the cap was hit |
| `SettledGroups.HistoryBelowCap` | moqt/track_reader.go:389-427 | While the cap is not hit the union is exactly what was added |
| `SettledGroups.WatermarkMonotone` | moqt/track_reader.go:419-426 | The watermark never moves back |
| `SettledGroups.CappedUnion` | moqt/track_reader.go:419-426 | Hitting the cap fills the oldest gap and nothing else |
| `SettledGroups.ShortTrackBelowCap` | moqt/track_reader.go:389-427 | Adds within 1..2048 never hit the cap |
| `SubscribeStream.EveryLogIsLegal` | moqt/receive_subscribe_stream.go:76-207 | Under every interleaving of OpenGroup, DropGroups, Redirect, Close and resets, each log is a prefix of OK DROP* END, of END, or of REDIRECT |
| `SubscribeStream.WhatIsOwedIsWritten` | moqt/receive_subscribe_stream.go:76-207 | In every run, if the stream is live and the write goes out: the first group or drop puts its OK on the log, each later drop its DROP, Close its END with the counter, and a redirect before any response the REDIRECT, all in their place for ever and the last two as the log's last |
| `SubscribeStream.OpenedBehindOk` | moqt/receive_subscribe_stream.go:76-90 | In every run a group is opened only behind an OK, and none is on its way once the track is closed or redirected |
| `SubscribeStream.EndNamesTheLast` | moqt/track_writer.go:113-135 | In every run whose steps keep that bound, wrapping or not, any END names a sequence at least that of every group opened |
| `SubscribeStream.WrapKeepsBoundIff` | moqt/track_writer.go:230-316 | OpenGroup, SkipGroups and DropNextGroups keep the counter a bound of every sequence in use exactly when it does not wrap or what remains is still enough for every group opened and every call on its way to open one |
| `SubscribeStream.BrokenBoundShows` | moqt/track_writer.go:113-135 | Once the bound is broken on a stream that can still close, calls that can be made bring an END below a group that was opened |
| `SubscribeStream.WrappedEnd` | moqt/track_writer.go:257-262 | A run in which the wrapped counter makes END name 0 after group 1 was opened |
| `SubscribeStream.SubscriberNeverErrs` | moqt/session.go:607-626 | The reader of any part of such a log never meets its unexpected-DROP error nor its redirect violation |
| `SubscribeStream.LegalLogIsAccepted` | moqt/send_subscribe_stream.go:63-96 | No legal log drives the reader into either error, and what it then knows, the start, the dropped ranges, the end and the redirect, is read off the log |
| `SubscribeStream.ReceiveSubscribeStream.EnsureOk` | moqt/receive_subscribe_stream.go:76-90 | Writes OK once, before any other response, and reports whether the subscription has been answered |
| `SubscribeStream.ReceiveSubscribeStream.WriteDrop` | moqt/receive_subscribe_stream.go:180-207 | DROP only after an OK and on a live stream; a first response writes the OK itself |
| `SubscribeStream.ReceiveSubscribeStream.WriteEnd` | moqt/receive_subscribe_stream.go:111-136 | At most one END, none after a redirect |
| `SubscribeStream.ReceiveSubscribeStream.WriteRedirect` | moqt/receive_subscribe_stream.go:138-171 | A redirect only as the first response; it ends the stream |
| `SubscribeStream.SendSubscribeStream.ReadResponses` | moqt/send_subscribe_stream.go:63-96 | The read loop folds the responses in order and stops at the first error |
| `AuthWriter.EveryTokenIsSound` | moqt/auth.go:267-382 | Over every interleaving of Grant, Refuse, withdrawal and timer callbacks, late ones included: an ended token has no entry in the scope, and its log is AUTH_OK* then at most one AUTH_ERROR |
| `AuthWriter.GrantTakesEffect` | moqt/auth.go:267-293 | In every run a grant to a live token is its entry in the scope, is answered AUTH_OK when the write went out, and replaces the timer |
| `AuthWriter.WithdrawEnds` | moqt/auth.go:351-382 | In every run a withdrawn token has ended, is out of the scope, has no timer, and has sent nothing |
| `AuthWriter.RefuseEnds` | moqt/auth.go:321-337 | In every run a refusal ends the token, takes its entry out, and answers AUTH_ERROR when the token was live and the write went out |
| `AuthWriter.FiringWaits` | moqt/auth.go:297-317 | In every run a timer that fires leaves the callback of its own grant waiting, once |
| `AuthWriter.EndIsForEver` | moqt/auth.go:351-382 | A token that has ended stays ended, out of the scope and silent |
| `AuthWriter.CallbackRevokesIff` | moqt/auth.go:297-317 | In every run a callback revokes exactly when the number of grants made since its own is a multiple of 2^64; otherwise it changes nothing |
| `AuthWriter.ExpiryRevokesItsOwnGrant` | moqt/auth.go:297-317 | So a callback overtaken by fewer than 2^64 grants revokes exactly when the grant it was set for is still the latest |
| `AuthWriter.OvertakenCallbackRevokes` | moqt/auth.go:297-317 | Runs in which any multiple of 2^64 grants overtake the callback of the first and it revokes the latest |
| `AuthWriter.AuthScope.Set` | moqt/auth.go:461-471 | Replaces the entry and reports a change exactly when the allowance differs |
| `AuthWriter.AuthScope.Remove` | moqt/auth.go:473-482 | Removes the entry and reports whether there was one |
| `AuthWriter.AuthScope.MaySubscribe` | moqt/auth.go:512-536 | True exactly when some grant in force has a subscribe pattern that matches |
| `AuthWriter.AuthScope.MayPublish` | moqt/auth.go:510-514 | True exactly when some grant in force has a publish pattern that matches |
| `AuthWriter.AuthScope.MayList` | moqt/auth.go:504-508 | True exactly when the prefix lies within the root of a grant in force |
| `AuthWriter.AllowedLiesWithinRoots` | moqt/auth.go:504-520 | Whatever the peer may publish or subscribe to lies within a root it may list |
| `AuthWriter.AllowedByAGrant` | moqt/auth.go:512-536 | In the terms of the grants as they came: the peer may publish a path exactly when a publish pattern of some grant matches it beneath that grant's root, and subscribe to it exactly when a subscribe pattern does |
| `AuthWriter.AuthWriter.Grant` | moqt/auth.go:267-293 | A grant after the end is refused to the caller; one too large is answered with AUTH_ERROR; otherwise entry, log and timer are replaced, field by field; the scope reports a change exactly when what it allows may differ |
| `AuthWriter.AuthWriter.Refuse` | moqt/auth.go:321-337 | Ends the token, takes its entry out and stops its timer; AUTH_ERROR is appended once, when it was live and the write goes out; the scope reports a change exactly when there was an entry |
| `AuthWriter.AuthWriter.End` | moqt/auth.go:351-382 | Withdrawal ends the token, takes its entry out and stops its timer, without a message; the scope reports a change exactly when there was an entry |
| `AuthWriter.AuthWriter.Lapse` | moqt/auth.go:297-317 | A timer callback revokes only for the generation it captured, ending the token and taking its entry out, and reports a change exactly when it removed one |
| `Rescope.QuietMeansCovered` | moqt/session.go:1058-1125 | Over every interleaving of grants, admissions and rescope passes: with no token pending, no change before its signal, no pass running and no handler short of its verdict, every registered writer is covered by a grant in force and lies under its root |
| `Rescope.CoveredIsServed` | moqt/session.go:1058-1125 | Over every interleaving: a subscription whose path stays covered is never refused or revoked, keeps its writer from registration to its end, and is served by its re-check |
| `Rescope.RunKeeps` | moqt/auth.go:792-837 | The invariant behind it holds in every reachable state |
| `Rescope.RecheckIsNeeded` | moqt/session.go:1103-1114 | For any grant and any path it covers, a run from a new session that, short of the re-check, leaves a registered writer that nothing covers and nothing will look at |
| `Rescope.RescopeSession.RescopePass` | moqt/auth.go:820-837 | A pass with nothing interleaved takes the wake-up and leaves exactly the track writers the scope covers |
| `Rescope.RescopeSession.RequestRescope` | moqt/auth.go:792-799 | Never blocks; a pending wake-up stands for this one |
| `Rescope.RescopeSession.AddTrackWriter` | moqt/session.go:1342-1347 | Overwrites or adds the entry of the id |
| `Rescope.RescopeSession.RemoveTrackWriter` | moqt/session.go:1349-1354 | Removes the entry of the id |
| `PathPattern.ParsePathPattern` | moqt/path_pattern.go:40-74 | Succeeds exactly for well-formed patterns and gives the parsed one |
| `PathPattern.ParseWildcard` | moqt/path_pattern.go:88-112 | Kind and name of one segment |
| `PathPattern.WildcardMeans` | moqt/path_pattern.go:88-112 | "{x}" is a wildcard named x, "{x...}" the rest, "{$}" the end and a segment without braces a literal, for letter and digit classes that leave the syntax alone; these are the only ones |
| `PathPattern.AllowedFromMeans` | moqt/path_pattern.go:40-74 | The segment loop accepts exactly when each segment is allowed at its place and no wildcard name is used twice |
| `PathPattern.Match` | moqt/path_pattern.go:133-141 | Match on a valid pattern is its declarative meaning |
| `PathPattern.MatchSegments` | moqt/path_pattern.go:143-175 | The segment matcher is the segment-wise meaning: literals equal, wildcards one non-empty segment, rest and anchor as last |
| `PathPattern.ParsedValid` | moqt/path_pattern.go:40-74 | Every parsed pattern is one Match accepts |
| `PathPattern.RawAgreesWithSegments` | moqt/path_pattern.go:133-141 | Matching a wildcard-free pattern by text agrees with matching it by segments, for every pattern but "/" |
| `PathPattern.RootPatternAgreesIff` | moqt/path_pattern.go:133-141 | For "/" they agree on a path exactly when it is invalid or starts with "//" |
| `PathPattern.RootPatternDiffers` | moqt/path_pattern.go:133-141 | On "/a" they differ |
| `Grants.ParseGrant` | moqt/auth.go:158-177 | Succeeds exactly for well-formed grants; keeps the root, and reads each publish pattern and each subscribe pattern beneath it in its own list and place |
| `Grants.EachListItsOwn` | moqt/auth.go:158-199 | What a grant's publish list matches is what one of its publish patterns matches beneath its root, and the same of its subscribe list |
| `Grants.JoinPattern` | moqt/path_pattern.go:199-204 | Joins and parses exactly the patterns that begin with "/" and are well formed beneath the root |
| `Grants.ParsePatterns` | moqt/auth.go:180-190 | All patterns or none |
| `Grants.InvalidGrant` | moq-web/src/auth.ts:98-118 | The TypeScript validator refuses exactly the grants that are not well formed, as parseGrant does, and names what is wrong: patterns without a root, a bad root, or a pattern of the grant that is bad |
| `Grants.ValidPattern` | moq-web/src/auth.ts:122-148 | The TypeScript pattern check accepts exactly the well-formed patterns |
| `Grants.SameVerdict` | moq-web/src/auth.ts:98-118 | Run on one triple, the two validators agree |
| `Grants.MatchAny` | moqt/auth.go:192-199 | True exactly when some pattern matches |
| `Grants.JoinedUnderRoot` | moqt/path_pattern.go:199-204 | A path matched by a pattern joined to a root starts with the root |
| `Grants.CoveredLiesUnderRoot` | moqt/auth.go:512-536 | Whatever a grant lets the peer publish or subscribe to lies under its root |
| `Grants.SameScopeSameGrant` | moqt/auth.go:117-122 | Grants compare the same by text exactly when they are the same scope |
| `Announcement.ExactlyOnce` | moqt/announcement.go:110-218 | Once the announcement has ended and all that was claimed has run, each callback ran exactly once unless it was stopped, and then never |
| `Announcement.RunsUnlessStopped` | moqt/announcement.go:110-218 | So once all that was claimed has run, each callback ran exactly once, unless the stop its own registration returned was called and returned true, and then never |
| `Announcement.OwnStop` | moqt/announcement.go:124-141 | In every later state the stop that AfterFunc returned on an active announcement returns true exactly while the list is not taken and its callback not yet stopped, and then stops that callback and no other |
| `Announcement.StoppedIff` | moqt/announcement.go:124-141 | In every run a callback is stopped exactly when the stop that its own registration returned was called and returned true |
| `Announcement.EveryRunCanEnd` | moqt/announcement.go:150-218 | Every run can be carried on until the announcement has ended and all that was claimed has run |
| `Announcement.AtMostOnce` | moqt/announcement.go:110-218 | At any time, over every interleaving, a callback ran at most once and a stopped one not at all |
| `Announcement.StopsOnce` | moqt/announcement.go:128-141 | A stop returns true for its callback at most once |
| `Announcement.Distribute` | moqt/announcement.go:162-213 | The inline branch and the worker branch run the live callbacks each once, in order, in at most one chunk a worker |
| `Announcement.Cut` | moqt/announcement.go:193-212 | The chunks partition the list for every callback and worker count |
| `Announcement.LiveHandlers` | moqt/announcement.go:183-189 | The list without its stopped entries |
| `Announcement.Announcement.AfterFunc` | moqt/announcement.go:110-126 | While active, queues the callback behind the others and returns the handle of that place; otherwise runs it in a goroutine |
| `Announcement.Announcement.Stop` | moqt/announcement.go:130-141 | Clears the entry and reports whether it was still there |
| `Announcement.Announcement.BeginEnd` | moqt/announcement.go:150-154 | Only the first end deactivates |
| `Announcement.Announcement.FinishEnd` | moqt/announcement.go:156-215 | Takes the list and hands out exactly its live callbacks |
| `AnnounceStreamRuns.NeverViolates` | moqt/announcement_writer.go:114-353 | Over every interleaving of init, SendAnnouncement, announcements ending and close, no prefix of the log has an ENDED for a suffix that is not active at the reader |
| `AnnounceStreamRuns.QuietMeansExact` | moqt/announcement_writer.go:200-324 | Once no call or end handler is in flight and the log is drained, the active suffixes at the reader are exactly those whose last-sent announcement is still active, each with that announcement |
| `AnnounceStreamRuns.StepKeeps` | moqt/announcement_writer.go:114-353 | Every step keeps the invariant that ties the writer, its log and the pending handlers |
| `AnnounceStreamRuns.RunKeeps` | moqt/announcement_writer.go:114-353 | So every reachable state has it |
| `AnnounceSends.SendIsNotLost` | moqt/announcement_writer.go:247-324 | In every run a SendAnnouncement that found another announcement or none active is, as long as the stream is open, under way or has written its ACTIVE |
| `AnnounceSends.SentWhenQuiet` | moqt/announcement_writer.go:247-324 | Once the writer is quiet, an announcement that was sent is on the wire: the peer held it already and the call changed nothing, or an ACTIVE for it was written after the call began |
| `AnnounceSends.InitSendsAll` | moqt/announcement_writer.go:112-198 | Until then each is still to be sent or has been, unless init failed; on a writer already closed it fails |
| `AnnounceSends.InitSentAll` | moqt/announcement_writer.go:112-198 | Once init is over, every announcement it started with has had its ACTIVE written |
| `AnnounceSends.EndsTheOldFirst` | moqt/announcement_writer.go:281-302 | In every run, before its ACTIVE goes out a call has written the ENDED of the announcement it replaces, unless another message about the suffix came in between, that announcement ended by itself, or another call is just ending it |
| `AnnounceSends.SilentOnceOver` | moqt/announcement_writer.go:326-370 | Nothing is written once the stream has ended, or once Close has stopped a writer whose init is not at work |
| `AnnounceSends.FreshUntilEnded` | moqt/announcement.go:20-40 | In every run an announcement keeps its suffix and is active exactly until it is deactivated |
| `AnnounceSends.EndedIsWithdrawn` | moqt/announcement_writer.go:200-245 | Once an announcement has ended and the writer is quiet, the peer holds it at no suffix |
| `AnnounceSends.CanBecomeQuiet` | moqt/announcement_writer.go:114-324 | While the stream is open every run extends, by finishing what is under way and nothing else, to one in which the writer is quiet |
| `AnnounceStream.ActiveIsLastSent` | moqt/announcement_reader.go:72-104 | A suffix active at the reader is so for the announcement last sent for it |
| `AnnounceStream.ReplayMeans` | moqt/announcement_reader.go:66-135 | The reader resets the stream exactly at an ENDED for a suffix not announced or ended since, and otherwise holds exactly the suffixes announced and not ended since |
| `AnnounceStream.AnnouncementReader.Receive` | moqt/announcement_reader.go:66-135 | Without a scope: ACTIVE replaces, ENDED removes, and an ENDED for an inactive suffix is a violation |
| `AnnounceStream.AnnouncementReader.Drain` | moqt/announcement_reader.go:66-138 | Reading a log gives its replay |
| `Hops.HeldIsClean` | moqt/announcement_reader.go:93-102 | In any network, over any topology and in any order, a held hop list has no zero, no repeat and not its holder's id |
| `Hops.PathIsShort` | moqt/announcement_writer.go:91-110 | With non-zero ids an announcement has come fewer hops than there are distinct ids |
| `Hops.PathIsBounded` | moqt/announcement_writer.go:91-110 | With at most one untracked node an announcement has come at most twice as many hops as there are tracked ids |
| `Hops.BoundedIff` | moqt/mux.go:40-46 | The way announcements travel is bounded if and only if at most one node is untracked |
| `Hops.ExcludesExactlyLoops` | moqt/announcement_writer.go:91-102 | With distinct non-zero ids the trail is simple and a node is excluded exactly when it is on it |
| `Hops.UntrackedLoop` | moqt/mux.go:42-46 | In every network with two untracked nodes an announcement can be passed between them any number of times |
| `Hops.ShouldExclude` | moqt/announcement_writer.go:94-102 | True exactly when the excluded id is non-zero and in the list or the sender's own |
| `Hops.AppendHopID` | moqt/announcement_reader.go:144-155 | A fresh list with a non-zero peer id behind; the same list for 0 |
| `Mux.TrackMux.ServeAnnouncements` | moqt/mux.go:286-327 | The initial set is, by suffix, exactly what a linear scan of the active index entries by string prefix and hop exclusion gives, for every valid prefix and for "//" too |
| `Mux.SnapshotCovers` | moqt/mux.go:302-311 | The node for a prefix holds every active announcement of the index that the string prefix matches |
| `Mux.AtMostOneActive` | moqt/mux.go:112-132 | Two active announced announcements of one path are the same |
| `Mux.TrackMux.Announce` | moqt/mux.go:143-225 | Replaces the index entry, ends the announcement it replaces and no other, and keeps the tree and the index in step |
| `Mux.TrackMux.Publish` | moqt/mux.go:98-110 | A new local announcement, served unless its context is already cancelled |
| `Mux.TrackMux.NewAnnouncement` | moqt/announcement.go:20-40 | One more announcement, active or not, and nothing else |
| `Mux.TrackMux.RegisterHandler` | moqt/mux.go:112-132 | The new handler is in the index and the old announcement is ended, its callback run |
| `Mux.TrackMux.End` | moqt/mux.go:216-224 | Ending an announced announcement takes it out of the index, and the tree invariant holds |
| `Mux.TrackMux.RunLate` | moqt/mux.go:216-224 | A late callback takes nothing out of the index but its own announcement |
| `Mux.TrackMux.RemoveHandler` | moqt/mux.go:134-141 | Removes the entry only for the handler it was registered with |
| `Mux.TrackMux.Initial` | moqt/announcement_writer.go:127-142 | Of a node's announcements: the active ones under the prefix that are not excluded, by suffix |
| `Mux.RunIndexed` | moqt/mux.go:134-141 | A callback, comparing handlers by identity, takes no active announcement out of the index |
| `Mux.AnnounceIndexed` | moqt/mux.go:143-225 | Announcing keeps index and callbacks in step, even for the announcement it replaces itself |
| `AnnouncementTree.Tree.RemoveAnnouncement` | moqt/mux.go:400-413 | Removal and upward pruning leave every other announcement in every node along its path, and the trie is exactly what the walk up from the last node gives |
| `AnnouncementTree.LingersIff` | moqt/mux.go:400-413 | The ended announcement leaves its last node, and stays in the node above exactly when the last node holds another announcement or has children |
| `AnnouncementTree.FirstLingers` | moqt/mux.go:400-413 | Of two announcements of one directory that end one after the other, the first stays in the root |
| `AnnouncementTree.Tree.GetChild` | moqt/mux.go:366-391 | An attached child for the segment, everything else as it was |
| `AnnouncementTree.Tree.CreateNode` | moqt/mux.go:415-423 | An attached node whose path is the segments, everything else as it was |
| `AnnouncementTree.Tree.Walk` | moqt/mux.go:157-173 | The chain of nodes from the root down the segments |
| `AnnouncementTree.Tree.AddTo` | moqt/mux.go:183-184 | The announcement is in every node of the chain, and no other announcement moves |
| `AnnouncementTree.PruneKeeps` | moqt/mux.go:400-413 | Dropping an empty node loses no announcement that is held from the root to its place |
| `AnnouncementTree.OnePlace` | moqt/mux.go:366-391 | There is one attached node a path |
| `AnnouncementTree.AnchoredAbove` | moqt/mux.go:157-184 | An anchored announcement is in the node of every prefix of its place |
| `MuxPaths.PrefixIsSegmentPrefix` | moqt/mux.go:484-553 | A path starts with a valid prefix exactly when its directories start with the prefix's segments, for every prefix but "//" |
| `MuxPaths.DoubleSlashIsRoot` | moqt/mux.go:484-491 | "//" has the segments of "/": the two readings agree exactly on the paths that start with "//" |
| `MuxPaths.PrefixSegments` | moqt/mux.go:484-515 | The segments between the outer slashes |
| `MuxPaths.PathSegments` | moqt/mux.go:517-553 | For a valid path: its segments but the last, and the last |
| `MuxPaths.CutAll` | moqt/mux.go:493-514 | The shortcuts for up to two segments and the loop cut the same |
| `Segments.DirectoryPrefix` | moqt/mux.go:430-436 | a + "/" is a string prefix exactly when the segments of a properly lead |
| `Segments.SplitAppend` | moqt/mux.go:504-514 | Splitting at slashes is a homomorphism |
| `Segments.SplitInjective` | moqt/mux.go:504-514 | Splitting loses nothing |
| `Segments.Cut` | moqt/path_pattern.go:143-175 | One segment, the rest, and whether there is one |
| `VarintCodec.VarintRoundTrip` | moqt/internal/message/message_reader.go:8-29 | A varint is read back whatever follows it (section 16 of RFC 9000) |
| `VarintCodec.TruncatedVarint` | moqt/internal/message/message_reader.go:36-75 | A stream that ends inside a varint ends with io.ErrUnexpectedEOF, and with io.EOF only before its first byte |
| `VarintCodec.SampleEncodings` | moqt/internal/message/message_writer.go:7-42 | The four sample encodings of appendix A.1 of RFC 9000 |
| `VarintCodec.WriteVarint` | moqt/internal/message/message_writer.go:7-42 | Appends the shortest of the four widths, big-endian, width in the two high bits |
| `VarintCodec.ReadVarint` | moqt/internal/message/message_reader.go:8-29 | Reads the width and then the number, or reports the end of the buffer |
| `VarintCodec.ReadMessageLengthBytewise` | moqt/internal/message/message_reader.go:36-55 | The byte-reader form: io.EOF before the varint, io.ErrUnexpectedEOF within it, a reset as it is |
| `VarintCodec.ReadMessageLengthFallback` | moqt/internal/message/message_reader.go:57-75 | The other form: the same result and the same bytes left, on every stream |
| `VarintCodec.ValueOfBytes` | moqt/internal/message/message_reader.go:16-27 | Big-endian bytes of a number have that number as their value |
| `Messages.BlockRoundTrip` | moqt/internal/message/message_reader.go:81-104 | A length-prefixed string is read back whatever follows it |
| `Messages.StringArrayRoundTrip` | moqt/internal/message/message_reader.go:106-131 | A counted string array is read back whatever follows it |
| `Messages.VarintsRoundTrip` | moqt/internal/message/announce_broadcast.go:82-90 | A run of varints is read back whatever follows it |
| `Messages.BodyRoundTrip` | moqt/internal/message/message_reader.go:136-152 | A body within 64 KiB is read back and the bytes after it are left |
| `Messages.CutBody` | moqt/internal/message/message_reader.go:136-152 | A message cut short reads as a clean io.EOF exactly when it is cut before its length or right behind it |
| `Messages.LongBodyRefused` | moqt/internal/message/message_reader.go:143-145 | A longer body is refused before any of it is read |
| `Messages.SetupRoundTrip` | moqt/internal/message/setup.go:125-187 | SETUP is read back exactly when its parameter ids are distinct; otherwise the decoder reports the duplicate |
| `Messages.TrailingRefused` | moqt/internal/message/setup.go:141-187 | Bytes behind the last parameter are refused |
| `Messages.SetupMessage.Len` | moqt/internal/message/setup.go:117-123 | The exact body length |
| `Messages.SetupMessage.Encode` | moqt/internal/message/setup.go:125-139 | The framed body |
| `Messages.SetupMessage.Decode` | moqt/internal/message/setup.go:141-187 | The parsed body or the first error, the stream left behind the body, and the parameters a failed decode leaves |
| `Messages.SetupMessage.FollowsRedirect` | moqt/internal/message/setup.go:93-105 | True exactly when the first redirect parameter is empty or one varint |
| `Messages.SetupMessage.AddProbe` | moqt/internal/message/setup.go:56-60 | Appends the level as a varint |
| `Messages.SetupMessage.AddPath` | moqt/internal/message/setup.go:62-65 | Appends the path |
| `Messages.StringArrayLen` | moqt/internal/message/message.go:31-37 | The exact encoded length |
| `Messages.WriteStringArray` | moqt/internal/message/message_writer.go:59-67 | Appends the counted array and returns its length |
| `Messages.ReadStringArray` | moqt/internal/message/message_reader.go:106-131 | Reads the counted array or reports the first error |
| `Messages.ReadBytes` | moqt/internal/message/message_reader.go:81-96 | Reads the block, refusing one that is too large or cut short |
| `Messages.ReadBody` | moqt/internal/message/message_reader.go:136-152 | Reads the body, refusing one that is too large |
| `Replies.BroadcastStreamRoundTrip` | moqt/internal/message/announce_broadcast.go:37-97 | ANNOUNCE_BROADCAST followed by any bytes is read back and leaves those bytes |
| `Replies.StatusAliases` | moqt/internal/message/announce_broadcast.go:61-66 | A status above 255 passes for its low byte |
| `Replies.ReplyRoundTrip` | moqt/internal/message/auth.go:93-213 | AUTH_OK and AUTH_ERROR, type included, followed by any bytes are read back and leave those bytes |
| `Replies.SetupStreamRoundTrip` | moqt/internal/message/setup.go:117-187 | SETUP followed by any bytes likewise, up to its duplicates |
| `Replies.BroadcastLen` | moqt/internal/message/announce_broadcast.go:24-35 | The exact body length |
| `Replies.EncodeBroadcast` | moqt/internal/message/announce_broadcast.go:37-53 | The framed body |
| `Replies.DecodeBroadcast` | moqt/internal/message/announce_broadcast.go:55-97 | The parsed body or the first error, and the stream left behind the body |
| `Replies.ReplyLen` | moqt/internal/message/auth.go:93-95 | The exact body length of either reply |
| `Replies.EncodeAuthOk` | moqt/internal/message/auth.go:98-111 | Type, length and body |
| `Replies.EncodeAuthError` | moqt/internal/message/auth.go:174-185 | Type, length and body |
| `Replies.DecodeAuthOk` | moqt/internal/message/auth.go:114-153 | The parsed body or the first error |
| `Replies.DecodeAuthError` | moqt/internal/message/auth.go:188-213 | The parsed body or the first error |
| `Replies.ReadReply` | moqt/internal/message/auth.go:16-25 | The type decides which decoder reads the rest |
| `Frames.GroupRoundTrip` | moqt/group_writer.go:50-64 | For every list of frames with timestamps below 2^63: reading the accepted bytes gives the same timestamps and payloads, then the end of the stream |
| `Frames.CutGroup` | moqt/group_reader.go:52-80 | Cut anywhere, a group gives its whole frames in order, and a clean end exactly when those are all the bytes there were |
| `Frames.FrameRoundTrip` | moqt/frame.go:88-179 | For any 64-bit timestamp the writer takes: read back exactly when it is below 2^63, and reported out of range otherwise |
| `Frames.CutFrame` | moqt/frame.go:117-179 | A stream that ends within a frame gives io.EOF only before the frame's first byte; a truncated frame is never a clean end |
| `Frames.LongPayloadRefused` | moqt/frame.go:147-149 | A length above the limit is refused before any of the payload is read |
| `Frames.AcceptsIff` | moqt/frame.go:96-103 | Below 2^63 the writer takes a frame exactly when its delta lies in [-2^61, 2^61-1] |
| `Frames.ZigzagRoundTrip` | moqt/internal/message/zigzag.go:5-12 | Decoding undoes encoding on every 64-bit integer |
| `Frames.ZigzagOnto` | moqt/internal/message/zigzag.go:5-12 | And encoding undoes decoding |
| `Frames.ZigzagMeans` | moqt/internal/message/zigzag.go:3-7 | 0, -1, 1, -2 become 0, 1, 2, 3 and so on |
| `Frames.Frame.Encode` | moqt/frame.go:88-115 | One write of prefix and payload, the body unchanged; out of range exactly when the delta is |
| `Frames.Frame.Decode` | moqt/frame.go:124-179 | The next frame or the error the code documents, the timestamp and, short of a truncated payload, the body a failed decode leaves, with every buffer growth at most max(64 KiB, twice the payload received) |
| `Frames.Frame.ReadPayload` | moqt/frame.go:153-176 | The read loop terminates with the payload, or with the truncated-frame error |
| `Frames.Frame.ReadChunk` | moqt/frame.go:159-175 | One step of the loop: room, then as much of the payload as the room takes |
| `Frames.Frame.MakeRoom` | moqt/frame.go:159-162 | Grows only a full buffer, to at most max(64 KiB, twice its payload) |
| `Frames.Frame.Init` | moqt/frame.go:53-61 | A new buffer with the same body behind the header room |
| `Frames.Frame.Append` | moqt/frame.go:63-73 | The body with the bytes behind it |
| `Frames.GroupWriter.WriteFrame` | moqt/group_writer.go:50-64 | The delta chain advances exactly for the frames written whole; a failed write leaves the bytes the stream took |
| `Frames.GroupReader.ReadFrame` | moqt/group_reader.go:52-80 | Each call gives the next frame of the group and leaves the rest to be read from its timestamp |
| `Catalog.AppliedInWireOrder` | msf/catalog.go:424-475 | ApplyDelta on a decoded delta is the fold of its wire operations in their declared order, with identities unique |
| `Catalog.Catalog.ApplyDelta` | msf/catalog.go:424-475 | The updated catalog is a new one; each failure is the one the code reports |
| `Catalog.AppliedMetadata` | msf/catalog.go:432-446 | Besides its tracks an update changes only what it sets: version and publish tracks stay, completeness is never taken back, extra fields are added or replaced one by one |
| `Catalog.UniqueBeforeValidation` | msf/catalog.go:504-549 | The operations alone keep identities unique |
| `Catalog.NamespaceChangeKeepsIds` | msf/catalog.go:433-438 | A change of default namespace leaves every track its identity |
| `Catalog.RefusedChangeMoves` | msf/catalog.go:477-485 | The check refuses nothing more: what it refuses would change an identity, but for one pair of names |
| `Catalog.PublishTrackMoves` | msf/catalog.go:433-438 | A publish track changes identity exactly when it inherits and the inherited namespace differs: the check looks at tracks only |
| `Catalog.PublishTrackMovesOnce` | msf/catalog.go:477-485 | For any rules, and any publish track and track they accept, an update for which the publish track moves |
| `Catalog.DuplicateIdentities` | msf/catalog.go:352-384 | The set form and the fixed-array form report the same positions, none exactly when identities are unique |
| `Catalog.AddAndRemoveMean` | msf/catalog.go:504-525 | Adding succeeds exactly for a new identity, and appends; removing succeeds exactly for a known one, and takes that track and no other |
| `Catalog.RemoveUndoesAdd` | msf/catalog.go:504-525 | Removing what was just added gives the list back |
| `Catalog.CloneUnderNewName` | msf/catalog.go:527-549 | A clone that declares only a name is its parent under that name, unless the name is taken in the parent's namespace |
| `Catalog.StepKeepsUnique` | msf/catalog.go:504-549 | Each operation keeps identities unique |
| `Catalog.Catalog.AddTrack` | msf/catalog.go:504-513 | Appends, or reports the duplicate and changes nothing |
| `Catalog.Catalog.RemoveTrack` | msf/catalog.go:515-525 | Removes at the place found, or reports the unknown track |
| `Catalog.Catalog.CloneTrack` | msf/catalog.go:527-549 | Appends the parent with its overrides, or reports what is wrong |
| `Catalog.Catalog.FindTrack` | msf/catalog.go:551-559 | The first place of the identity |
| `Catalog.Catalog.Validate` | msf/catalog.go:329-421 | Accepts exactly the valid catalogs |
| `Tracks.OverrideMeans` | msf/catalog.go:764-901 | Field by field a clone has what its override declares, even as empty, and otherwise what its parent has |
| `Tracks.OverriddenIdentity` | msf/catalog.go:764-901 | A clone has the namespace, the name and each extra field its override declares, and otherwise its parent's |
| `Tracks.CloneOfClone` | msf/catalog.go:764-901 | A clone of a clone is the first parent with both overrides, the later one on top |
| `Tracks.RenameOnly` | msf/catalog.go:764-901 | An override of the name alone changes nothing else |
| `Tracks.IdSurvives` | msf/catalog.go:677-697 | A track keeps its identity under a new namespace exactly when it does not inherit, or inherits the same |
| `CatalogDelta.OperationsCover` | msf/catalog_delta.go:143-171 | operations() takes each grouped slice exactly once and in order, for any delta |
| `CatalogDelta.WireOfDecoded` | msf/catalog_delta.go:253-304 | Decoding an op list and encoding it again gives it back, empty operations included |
| `CatalogDelta.DecodedWire` | msf/catalog_delta.go:182-202 | Encoding any delta and decoding it keeps its slices, and it encodes the same again |
| `CatalogDelta.ComputeOperations` | msf/catalog_delta.go:146-171 | The loop with its map of positions gives the spans |
| `CatalogDelta.DeltaDecoder.DecodeDeltaOps` | msf/catalog_delta.go:255-304 | Fails exactly for an unknown operation; otherwise the slices and the order are recorded |
| `CatalogBroadcast.ParkedIsCurrent` | msf/broadcast.go:281-338 | Over every interleaving a subscriber parked on a channel that is still open has last sent the current catalog |
| `CatalogBroadcast.CatchesUp` | msf/broadcast.go:281-338 | From any reachable state a subscriber's own steps bring it to having sent the current catalog, if that can be encoded and the writes are taken; it then waits on an open channel, or has ended because the broadcast is closed |
| `CatalogBroadcast.ClosedForGood` | msf/broadcast.go:237-248 | After Close the broadcast is closed for ever and every subscriber that waits can wake |
| `CatalogBroadcast.RegisteredMeans` | msf/broadcast.go:152-201 | A registration that is accepted leaves the track in the catalog with its handler and every other track in its place; one that is refused changes neither |
| `CatalogBroadcast.RemovedMeans` | msf/broadcast.go:206-232 | A removal leaves no track and no handler of that name, and every other track |
| `CatalogBroadcast.SentInOrder` | msf/broadcast.go:281-314 | Every group a subscriber sends is a catalog of the history; they come in order, no two neighbours equal |
| `CatalogBroadcast.HandlersHaveTracks` | msf/broadcast.go:119-250 | Track names stay distinct and every handler's name is in the catalog |
| `CatalogBroadcast.StepKeeps` | msf/broadcast.go:59-66 | Every critical section and every subscriber step keeps the invariant |
| `CatalogBroadcast.ValidateForBroadcast` | msf/broadcast.go:419-458 | The map form and the fixed-array form accept exactly the routable catalogs |
| `CatalogBroadcast.AcceptedNamesDiffer` | msf/broadcast.go:419-458 | In an accepted catalog track names differ |
| `CatalogBroadcast.Broadcast.SetCatalog` | msf/broadcast.go:119-145 | An accepted catalog is the current one, with channel, payload and stale handlers changed along; a refused one changes nothing |
| `CatalogBroadcast.Broadcast.RegisterTrack` | msf/broadcast.go:152-201 | Adds or replaces the track and its handler, or changes nothing the subscribers see |
| `CatalogBroadcast.Broadcast.RemoveTrack` | msf/broadcast.go:206-232 | Removes the track and its handler and reports whether there was either |
| `CatalogBroadcast.Broadcast.CloseChanged` | msf/broadcast.go:237-248 | The broadcast is closed and its channel shut, once; the catalog and the handlers stay |
| `CatalogBroadcast.Broadcast.CatalogState` | msf/broadcast.go:319-338 | Gives the current encoding, made once a change |
| `InitData.PayloadsSurvive` | moq-web/src/msf/init_data.ts:30-127 | After the wire form is resolved every track of a valid catalog has the payload it had or referred to |
| `InitData.PayloadSurvivesIff` | moq-web/src/msf/init_data.ts:30-127 | With valid entries and unique ids a track is received with the payload it had or referred to if and only if it does not dangle or materializing adds no entry under the id it refers to |
| `InitData.KeptApartIsNotAdded` | moq-web/src/msf/init_data.ts:86-123 | An id that is no reference, name or numbered name of a track whose payload is new to the list is not added |
| `InitData.KeptApartSurvives` | moq-web/src/msf/init_data.ts:86-123 | So a dangling track whose reference is kept apart in this way stays without a payload |
| `InitData.ListKeeps` | moq-web/src/msf/init_data.ts:71-127 | The existing list stays as a prefix and ids stay unique |
| `InitData.PayloadsShared` | moq-web/src/msf/init_data.ts:71-127 | Tracks with one payload share one entry: no payload is put in the list twice |
| `InitData.MaterializeAgain` | moq-web/src/msf/init_data.ts:71-127 | Materializing what was received adds nothing and gives the same references |
| `InitData.FreshIdMeans` | moq-web/src/msf/init_data.ts:86-96 | A fresh id is free and not empty |
| `InitData.FreeFromMeans` | moq-web/src/msf/init_data.ts:90-95 | It is the least free candidate; distinct numbers give distinct candidates |
| `InitData.ComputeFreshId` | moq-web/src/msf/init_data.ts:86-96 | The search terminates with it |
| `InitData.DanglingRefCaptured` | moq-web/src/msf/init_data.ts:98-124 | For every id, name and payload: a dangling reference that a second track shares comes to stand for the second track's payload |
| `InitData.ValidateInitData` | moq-web/src/msf/catalog.ts:471-505 | Reports a problem exactly for the catalogs that are not valid |
| `InitData.Catalog.ResolveInitData` | moq-web/src/msf/init_data.ts:30-51 | Fills initData exactly where a reference resolves to an inline payload |
| `InitData.Catalog.MaterializeInitData` | moq-web/src/msf/init_data.ts:71-127 | The loop with its indexes gives the wire form |

## Left out

- QUIC, WebTransport, TLS, listeners, dialers and HTTP; a stream is a log whose writes fail for ever once it is closed or reset.
- Timers and clocks: a timer firing, a grace lapsing and a context ending are steps or parameters.
- Sequences from 2^62 on, which do not fit a varint: encoding one panics. `SettledGroups.Sequence` is unbounded, so hi + 1 never wraps.
- Group delivery when the resolved start is 0, which the code reads as no groups; a publisher that opens a group always resolves a start of at least 1.
- Delivery.EachGroupOnceThenEof: stops at the cap of 1024 ranges; past it `Delivery.EofIsComplete` and `Delivery.EofIsForEver` say what io.EOF still means.
- Rescope.QuietMeansCovered: a handler between a failed re-check and the close that follows it counts as not quiet, because the writer is still registered there; subscribe ids are distinct, as a reused one overwrites its entry.
- Rescope.RescopeSession.RescopePass: one pass with nothing interleaved, over track writers; the interleavings are those of the state machine, and announce streams and other watchers are left out.
- AnnounceStream.AnnouncementReader.Receive: the reader has no scope and no queue of announcements waiting to be received.
- AnnounceStreamRuns.QuietMeansExact: only the reader ends its own announcements; an application that ends one the peer still announces is outside it.
- Live delivery of announcements to subscribers whose trie node was pruned, for which the code makes no promise, and the subscription channels with their buffer of 8.
- Mux operations racing between the lookup of a node and the insertion into it: the mux here runs one operation at a time.
- The nodes that a lingering announcement keeps from being pruned later: `AnnouncementTree.LingersIff` says when one lingers.
- Announcement.Distribute: hands out chunks; that the goroutines then run them is the Run step of the state machine.
- A session of a mux with itself: a forwarded announcement goes to another node.
- The order in which Go ranges over a map: sets are taken in any order.
- Replies.DecodeAuthOk: messages are values, so the fields a failed decode leaves half filled are not modelled.
- Frames.Frame.Encode: asks for a frame that has a buffer; a zero Frame has none until something is put in it, and encoding one panics.
- Frames.Frame.Decode: after a payload cut short the contract leaves the body open.
- Bitwise operators: shifts and masks are written as multiplication, division and remainder on integers, exclusive-or with a sign mask as a complement.
- JSON text, zod schemas and the encoding of catalogs: the encoder is a function of the environment that may fail, and deltas begin as decoded operation lists.
- Catalog.Catalog.Validate: the rules of single fields and of the Go init data list are parameters; names and identities are modelled.
- Track fields other than namespace and name are one map from name to raw value.
- Go and TypeScript agreement on the order of delta operations: TypeScript keeps only the first-seen order of each kind.
- Strings are sequences of characters; neither UTF-16 code units nor invalid UTF-8 is modelled, and letter and digit classes are shared predicates.
- Bitrate tracking, probes, fetch, redirects followed by a session, statistics, logging and configuration.
