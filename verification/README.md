# Tavora server: a verified model

This project models the parts of a virtual-tabletop server that are hardest to get right, and
proves what they are meant to guarantee. It is written in Dafny; `dafny verify dfyconfig.toml`
checks all of it.

| component | files |
|---|---|
| Realtime delivery: queue, hub, writer, catch-up, and every interleaving of them | `Outbox`, `OutboxTheory`, `Delivery`, `DeliveryOrder`, `DeliveryPipe`, `DeliveryFeed`, `DeliveryComplete`, `DeliveryResume`, `DeliveryLimits`, `Hub`, `Writer`, `Replay` |
| The event log and its transactions | `EventLog` |
| Line of sight and doors | `Vision`, `Sight`, `SightTheory`, `SightLimits`, `Doors`, `DoorsTheory` |
| Permission, redaction, and live against catch-up | `Documents`, `Permission`, `Redaction`, `RedactionTheory`, `Access`, `AccessTheory`, `CatchUp`, `CatchUpTheory` |
| Dice and combat | `Text`, `TextTheory`, `DiceSelection`, `Dice`, `DiceText`, `DiceTheory`, `CombatOrder`, `Combat`, `CombatTheory` |
| The login limiter | `RateLimit`, `RateLimitTheory`, `RateLimitLimits` |
| The thumbnail scaler | `Thumbnail`, `ThumbnailTheory` |
| World slugs | `Slug` |
| Shared result types | `Wrappers` |

How things are represented:

- Code that changes state in place is a class or a method with loops, proved against a function
  on values; what the source promises is then proved about that function over all inputs or runs.
- The delivery protocol is a step system around one session. Everyone who shares state with it
  (other sessions that commit and publish, the hub goroutine, the serving goroutine, the writer)
  has actions of its own; a run is any list of enabled actions, so a statement about all runs is a
  statement about all interleavings. Storing `lastSeq` and writing are separate steps, as are
  popping and testing `Closed`. `Hub.FanOutIsSteps`, `Writer.DrainIsSteps` and
  `Replay.ReplayIsProtocolStep` tie the loops of the source to those steps.
- JSON columns are trees, or bytes that do not parse; tables are maps; a transaction is atomic
  with rollback. Coordinates are exact reals, lengths and counters unbounded integers. The clock,
  the dice, the Unicode tables and the field policy are parameters, arbitrary unless stated.

Where the code does less than one might expect, the model follows the code: the exact condition
under which it does meet the property is proved for all inputs, and a lemma shows the failing side.

- With the tolerance of 1e-9 `Crosses` is not intersection for all real segments
  (`Vision.ToleranceCanInvent`, `Vision.ToleranceCanMiss`). The same test with no tolerance is, and
  `Crosses` is right about two segments if and only if it agrees with that one
  (`Vision.RightExactlyWhenSharp`); on integer coordinates it always does.
- `VisibleTokens` leaves out a token whose position cannot be read, while `CanSee` shows it
  (`SightLimits.ListingCanDisagree`); the condition is `Sight.ListingIsCanSee`.
- A sight-blocking door whose `doorOpen` is not a boolean is not restored by toggling twice
  (`DoorsTheory.TextFlagIsNotRestored`); the condition is `DoorsTheory.TwiceRestoresExactly`.
- A connected session can lose an event for good when publications overtake each other
  (`DeliveryLimits.OutOfOrderPublicationLoses`): it loses none if and only if each entitled event
  beyond catch-up is handed over ahead of any larger one (`DeliveryFeed.NothingLostIffInTurn`).
- It can also lose events when more than 500 were missed (`DeliveryLimits.CatchUpLimitLoses`): with
  publications in order it loses none if and only if no entitled event lies beyond the end of
  catch-up and not beyond the point the session joined at (`DeliveryComplete.SettledExactly`).
- The limiter's bound on failures holds for every run if and only if the lockout is longer than the
  window or the window is negative (`RateLimitLimits.BoundedIffLockoutOutlasts`).
- A new ACL entry, unlike a raised one, can hide a document (`RedactionTheory.NewEntryCanHide`): it
  does if and only if its level is none (`RedactionTheory.NewEntryDecides`).

## Model

| member | source | states |
|---|---|---|
| `DeliveryComplete.WrittenIsAPrefix` | internal/transport/ws/session.go:169-287 | over every interleaving with publications in order, replay that includes what live would have and frames that encode, what has been written is a prefix of the entitled events above the resume point without those between the end of catch-up and the point of joining, however many were missed |
| `DeliveryComplete.NothingIsLost` | internal/transport/ws/session.go:169-287 | so with at most 500 events missed at join it is a prefix of all entitled events above the resume point, without gap or duplicate |
| `DeliveryResume.ResumesWhereAsked` | internal/transport/ws/session.go:255-265 | over every run the session resumes at the sequence the client named, if it lies between 0 and the length of the log when looked at, and at 0 otherwise |
| `DeliveryResume.ClientMissesNothing` | internal/transport/ws/session.go:169-287 | a client that names a sequence the server has is written, at every moment, a prefix of the entitled events above that sequence, and all of them once settled, with at most 500 between it and the point of joining |
| `DeliveryResume.StrangerStartsOver` | internal/transport/ws/session.go:260-264 | one that names a sequence the server does not have is written everything from the start, likewise |
| `DeliveryResume.WriterKeepsGoing` | internal/transport/ws/session.go:526-560 | over every run the writer stops only after a failed write, a cancelled context, or on a closed queue |
| `DeliveryComplete.SettledExactly` | internal/transport/ws/session.go:255-287 | a session that has caught up with the log has been written all entitled events above its resume point if and only if none lies beyond the end of catch-up and not beyond the point it joined at; otherwise exactly the rest |
| `DeliveryComplete.SettledIsEverything` | internal/transport/ws/session.go:526-560 | once an attached session has caught up with the log, it has been written all entitled events and no others |
| `DeliveryFeed.NothingLostIffInTurn` | internal/transport/ws/hub.go:100-131 | under any order of publication, once everything published has made its way through, nothing is lost if and only if each entitled event beyond catch-up was handed over since joining ahead of any larger one |
| `DeliveryFeed.WireIsFedInTurn` | internal/transport/ws/session.go:526-560 | in every run in which frames encode, the wire holds a prefix of the events that come in turn in catch-up followed by the entitled publications since joining, and in the end all of them |
| `DeliveryFeed.FeedingStep` | internal/transport/ws/hub.go:66-131 | every single step of every actor keeps sent plus pending equal to what the writer would send of all the session was given |
| `DeliveryPipe.CatchUpThenLive` | internal/transport/ws/session.go:255-287 | catch-up prepended to whatever arrived since joining comes out of the writer as the entitled events up to the end of catch-up and those beyond the point of joining, each once |
| `DeliveryPipe.SentExactlyInTurn` | internal/transport/ws/session.go:533-538 | the writer sends an event exactly when it is above the resume point and comes before every event that is not smaller |
| `DeliveryFeed.InStepCompare` | internal/transport/ws/session.go:533-538 | the writer's comparison with `lastSeq` neither loses nor repeats an event |
| `DeliveryPipe.AppendOne` | internal/transport/ws/session.go:533-538 | what one more queued event adds to what the writer will send |
| `DeliveryOrder.WritesInOrder` | internal/transport/ws/session.go:526-548 | under any publication order the sequences written rise strictly and start above the resume point |
| `DeliveryOrder.ResyncNeverSkips` | internal/transport/ws/session.go:160-167 | a slow-consumer resync that reaches the client never asks to resume beyond the last event written before it, or the resume point |
| `DeliveryOrder.DocumentLaneIsBounded` | internal/transport/ws/outbox.go:71-132 | in every run the document lane holds at most its cap and one catch-up |
| `DeliveryOrder.NoLostWakeUp` | internal/transport/ws/session.go:550-558 | a waiting writer with anything queued, or whose queue was closed, can always be woken |
| `DeliveryLimits.OutOfOrderPublicationLoses` | internal/transport/ws/intents.go:189-267 | commit and publish being separate, a run on the failing side of `NothingLostIffInTurn`: two publications overtake each other and an event is lost for good |
| `DeliveryLimits.CatchUpLimitLoses` | internal/transport/ws/session.go:341-348 | a run on the failing side of `SettledExactly`: with 501 events missed, the one the user was entitled to is lost with every other assumption in force |
| `Hub.Hub.FanOut` | internal/transport/ws/hub.go:100-131 | in any order of visiting, each session ends up as if the publication were for it alone, and exactly those whose queue refused are told to resync, closed and let go |
| `Hub.SessionsAreIndependent` | internal/transport/ws/hub.go:66-131 | over every run of joins, leaves and publications the hub holds for a session what it would hold if there were no other |
| `Hub.WhoIsServed` | internal/transport/ws/hub.go:25-35 | a session excluded, not subscribed, outside the audience or without a frame of its own keeps its entry; any other is offered its own frame or the common one on the lane named, and is let go with a resync exactly when its queue refuses |
| `Hub.OutsidersReceiveNothing` | internal/transport/ws/hub.go:100-131 | over every run of the hub a session outside the audience of everything published keeps the queue it had |
| `Hub.Hub.Quit` | internal/transport/ws/hub.go:91-95 | every session is told to resync from zero and closed |
| `Hub.QuitTellsEveryone` | internal/transport/ws/session.go:160-167 | each queue ends with a resync from zero behind its control frames, and closed |
| `Hub.Visited` | internal/transport/ws/hub.go:100-131 | deleting from the table while ranging over it visits every session once |
| `Hub.FanOutIsSteps` | internal/transport/ws/hub.go:112-129 | the loop's work on one session is a run of the protocol's steps: same queue, same sequence, let go in the same cases |
| `Writer.Writer.Drain` | internal/transport/ws/session.go:528-548 | one uninterrupted drain empties the queue in pop order, writes what passes the comparison and encodes, and stores the last sequence |
| `Writer.DrainIsDedup` | internal/transport/ws/session.go:533-538 | the events a drain writes are the queued events without repeats and stragglers |
| `Writer.DrainIsSteps` | internal/transport/ws/session.go:526-560 | a drain is a run of the protocol's steps with the same wire and the same sequence |
| `Replay.ReplayFrames` | internal/transport/ws/session.go:341-382 | the catch-up loop yields a frame for each event the subject is shown, in order, and fails when one cannot be worked out |
| `Replay.ReplayIsProtocolStep` | internal/transport/ws/session.go:341-382 | over consecutive events those frames are the ones the protocol's replay step queues |
| `Outbox.Outbox.constructor` | internal/transport/ws/outbox.go:33-46 | an empty queue with default caps in place of non-positive ones |
| `Outbox.Outbox.Control` | internal/transport/ws/outbox.go:59-69 | refines pushing on the control lane of the simple queue |
| `Outbox.Outbox.Document` | internal/transport/ws/outbox.go:71-85 | refines pushing on the document lane: refused when closed or full |
| `Outbox.Outbox.Ephemeral` | internal/transport/ws/outbox.go:87-112 | the map beside the order of keys refines a list with one frame per key: replace in place, or drop the oldest when full |
| `Outbox.Outbox.Prepend` | internal/transport/ws/outbox.go:114-132 | refines putting a batch ahead of the document lane |
| `Outbox.Outbox.Next` | internal/transport/ws/outbox.go:134-156 | refines popping control before document before ephemeral |
| `Outbox.Outbox.Shut` | internal/transport/ws/outbox.go:176-185 | refines closing, once |
| `OutboxTheory.EveryRunAccounts` | internal/transport/ws/outbox.go:33-156 | after any operations each ordered lane holds what was accepted and not yet taken, in order; accepted ephemeral pushes = coalesced + popped + dropped + queued; keys are distinct, within the cap, with their newest frame; the caps are those asked for, or 256 and 64 |
| `OutboxTheory.PopAfterAnyRun` | internal/transport/ws/outbox.go:134-156 | what a pop returns after any operations: first in, first out within the first lane that has anything, the newest frame of a key, nothing only when all is accounted for |
| `OutboxTheory.StepKeeps` | internal/transport/ws/outbox.go:59-185 | every operation keeps the account |
| `EventLog.Store.Apply` | internal/storage/sqlstore/documents.go:75-104 | one statement does what its specification says or fails without effect |
| `EventLog.Store.Tx` | internal/storage/sqlstore/sqlstore.go:48-63 | a transaction takes effect as a whole or not at all |
| `EventLog.AppendKeepsShape` | internal/storage/sqlstore/documents.go:471-507 | appending to an existing world succeeds and keeps sequences exactly 1 to `event_seq` |
| `EventLog.PutKeepsShape` | internal/storage/sqlstore/documents.go:75-104 | writing a world keeps the log in shape exactly when the world existed or starts at zero |
| `EventLog.RunsKeepShape` | internal/transport/ws/intents.go:72-111 | over every run of transactions, rolled-back ones and world write-backs included, sequences are exactly 1 to `event_seq` |
| `EventLog.RunsOnlyAppend` | internal/storage/sqlstore/documents.go:471-507 | over every run of transactions no event is removed or rewritten |
| `EventLog.RunsKeepSlugsDistinct` | internal/storage/sqlite/sqlite.go:112 | over every run of transactions no two worlds come to share a slug |
| `EventLog.EventsSinceIsSuffix` | internal/storage/sqlstore/documents.go:509-548 | reading since any number gives exactly the first `limit` entries of the suffix above it, each sequence with its stored body |
| `EventLog.AppendedReadsBack` | internal/storage/sqlstore/documents.go:471-548 | reading from where the log ended gives the one entry appended, with its body; earlier entries stay |
| `Vision.SharpTestIsIntersection` | internal/core/vision/vision.go:13-46 | with no tolerance the test is true exactly when the closed segments share a point, for all real segments, degenerate and collinear ones included |
| `Vision.RightExactlyWhenSharp` | internal/core/vision/vision.go:13-46 | `Crosses` is intersection for two real segments if and only if dropping the tolerance would not change its answer |
| `Vision.CrossesIsIntersection` | internal/core/vision/vision.go:13-46 | so it is wherever every quantity compared is zero or beyond the tolerance |
| `Vision.CrossesOnTheGrid` | internal/core/vision/vision.go:13-46 | for integer coordinates, degenerate and collinear segments included, `Crosses` is exactly intersection |
| `Vision.VisibleOnTheGrid` | internal/core/vision/vision.go:48-56 | on integer coordinates a target is visible exactly when no blocker meets the closed line of sight |
| `Vision.VisibleWhereRight` | internal/core/vision/vision.go:48-56 | so it is on real coordinates where the test is right about each blocker |
| `Vision.VisibleFromAnyOnTheGrid` | internal/core/vision/vision.go:58-68 | on integer coordinates a point is visible exactly when there is no viewpoint, or one has a closed line of sight to it that meets no blocker |
| `Vision.MoreViewpointsSeeMore` | internal/core/vision/vision.go:58-68 | another viewpoint never hides what a non-empty set already sees |
| `Vision.CrossesReversed` | internal/core/vision/vision.go:24-46 | reversing the line of sight does not change the test, tolerance included |
| `Vision.VisibleIsSymmetric` | internal/core/vision/vision.go:48-56 | a sees b exactly when b sees a, for all real coordinates |
| `Vision.ToleranceCanInvent` | internal/core/vision/vision.go:13-46 | two disjoint segments closer than the tolerance count as crossing |
| `Vision.ToleranceCanMiss` | internal/core/vision/vision.go:13-46 | a crossing with a wall shorter than the tolerance is missed |
| `Sight.BlockersOf` | internal/core/sight/sight.go:28-53 | the segments of the walls that stop sight, in order, unreadable walls skipped |
| `Documents.ListingIsExact` | internal/storage/sqlstore/documents.go:172-210 | a listing holds only documents of the kind under the parent that are not deleted, at most 1000, and all of them unless it holds that many |
| `Sight.ViewpointsOf` | internal/core/sight/sight.go:55-87 | the positions of the tokens the subject owns, in order |
| `Sight.Filter` | internal/core/sight/sight.go:97-138 | a recipient is kept exactly when `CanSee` holds of them, for every document; it fails exactly when `CanSee` fails of one |
| `Sight.VisibleTokens` | internal/core/sight/sight.go:140-175 | the loop computes the listing |
| `Sight.SelectSeen` | internal/core/sight/sight.go:164-174 | the tokens that can be placed and are open to a viewpoint, in order |
| `Sight.ListingIsCanSee` | internal/core/sight/sight.go:140-209 | the listing is, in order, exactly the tokens for which `CanSee` holds, if and only if all can be placed or the subject's sight is unrestricted |
| `Sight.UnplacedTokenIsUnlisted` | internal/core/sight/sight.go:164-194 | wherever sight is restricted, a token that cannot be placed is shown by `CanSee` and left out of the listing |
| `SightTheory.CanSeeOnTheGrid` | internal/core/sight/sight.go:179-209 | staff see every token; on integer coordinates anyone else sees a placed token exactly when they own no placed token there, or one of theirs has a closed line of sight to it that meets no wall |
| `SightTheory.ListingOnTheGrid` | internal/core/sight/sight.go:140-175 | and so for the listing |
| `SightTheory.ViewpointsAreOwned` | internal/core/sight/sight.go:71-86 | the viewpoints are the positions of the tokens owned, and of no others |
| `SightTheory.WallExactly` | internal/core/sight/sight.go:38-51 | a wall stands between its two points exactly when it can be read, blocks sight and is not an open door, what is missing being zero or false |
| `SightTheory.PlacedExactly` | internal/core/sight/sight.go:89-95 | a token can be placed exactly when its data is an object whose coordinates are numbers or missing, missing ones being zero |
| `SightLimits.ListingCanDisagree` | internal/core/sight/sight.go:140-209 | a scene in which that happens |
| `Doors.VisibilityFrames` | internal/transport/ws/doors.go:166-242 | one scene view per member with a known role, failing only when one of them fails |
| `Doors.Redacted` | internal/transport/ws/doors.go:202-221 | the redacted tokens in order, without those withheld |
| `DoorsTheory.OpeningNeverHides` | internal/transport/ws/doors.go:60-99 | opening a door never takes a token out of any subject's view of any scene |
| `DoorsTheory.ClosingNeverShows` | internal/transport/ws/doors.go:60-99 | closing a door never puts a token into any view |
| `DoorsTheory.ToggleFlipsOneField` | internal/transport/ws/doors.go:65-80 | refused unless the door flag is true; otherwise the open flag is turned over and every other field stays |
| `DoorsTheory.ToggleTouchesOneDocument` | internal/transport/ws/doors.go:80-98 | the wall is stamped with the event, and no other document changes |
| `DoorsTheory.ViewIsRedacted` | internal/transport/ws/doors.go:202-221 | a scene view carries only listed tokens of the scene, each redacted for the subject |
| `DoorsTheory.TwiceRestoresExactly` | internal/transport/ws/doors.go:65-80 | two toggles leave a wall blocking as before if and only if its open flag decodes as a boolean or the wall would not stop sight when shut |
| `DoorsTheory.TogglingTwiceRestores` | internal/transport/ws/doors.go:60-99 | two toggles restore every view whole, names, images and data included, when the door is not itself a token, and its tokens in order in any case, for a flag that decodes or a wall that would not stop sight when shut |
| `DoorsTheory.TextFlagIsNotRestored` | internal/transport/ws/doors.go:65-80 | a door on the failing side of `TwiceRestoresExactly` |
| `DoorsTheory.VisibleFromAnyWithFewer` | internal/core/vision/vision.go:48-68 | adding blockers never reveals anything |
| `Permission.ReadAcl` | internal/core/perm/perm.go:132-152 | the loop reads every entry, or fails when the column or one level cannot be read |
| `Permission.LevelsByName` | internal/core/perm/perm.go:41-68 | the four levels by name, each reading back, and no other text but the empty one |
| `Permission.AclReadsBack` | internal/core/perm/perm.go:132-151 | every table of levels can be stored and read back |
| `AccessTheory.StoredEntryDecides` | internal/core/access/access.go:47-109 | a level comes from the first there is of the document's entry for the user and default, the folder's, and the world's default for kind and subtype or kind; staff own, observers only observe |
| `AccessTheory.ReadersGetViews` | internal/core/access/access.go:111-144 | a member gets a view exactly when their role is known and their level above none, and it is the redaction for their own grant |
| `Permission.MostSpecificDecides` | internal/core/perm/perm.go:164-194 | user entry before document default before folder before world, whatever the less specific ones say; observers get at most observer and never edit, staff own |
| `Permission.EffectiveIsMonotone` | internal/core/perm/perm.go:164-194 | raising existing entries or the world default lowers nobody's level |
| `Redaction.PruneObject` | internal/core/perm/redact.go:116-137 | the recursive loop computes the pruned tree |
| `Redaction.CollectHidden` | internal/core/perm/redact.go:179-194 | the reported paths are exactly the first refused ones, each once |
| `RedactionTheory.SurvivesExactly` | internal/core/perm/redact.go:116-137 | a path survives exactly when it exists and every key on the way is allowed; its leaf is unchanged |
| `RedactionTheory.ReportedExactly` | internal/core/perm/redact.go:179-194 | a path is reported exactly when it is the first refused on its way |
| `RedactionTheory.RedactionPartition` | internal/core/perm/redact.go:116-194 | every path survives or lies at or below exactly one reported path, never both |
| `RedactionTheory.SentShowsExactly` | internal/core/perm/redact.go:50-162 | a sent document shows no data below observer, from there on exactly the stored paths whose every key is allowed, and to non-staff no ownership entry but their own |
| `RedactionTheory.FieldsShownByLevel` | internal/core/perm/perm.go:78-126 | outside the staff a stored field is shown from observer on when public or for observers, at owner only when for owners, never when for game masters; staff are shown all |
| `RedactionTheory.PathsShownByLevel` | internal/core/perm/redact.go:50-137 | and a path exactly when each key on the way is cleared so by its own visibility |
| `RedactionTheory.PathText` | internal/core/perm/redact.go:119-124 | the policy is asked about the keys with dots between, flags under their own prefix |
| `RedactionTheory.OwnershipSent` | internal/core/perm/redact.go:139-162 | the ownership sent reads back as the stored table for staff, and as their own entry for anyone else |
| `RedactionTheory.PruneCompose` | internal/core/perm/redact.go:116-137 | pruning under one grant and then another keeps exactly what both allow |
| `RedactionTheory.PruneCommutes` | internal/core/perm/redact.go:116-137 | the order of two prunings does not matter |
| `RedactionTheory.PruneIdempotent` | internal/core/perm/redact.go:116-137 | pruning twice is pruning once |
| `RedactionTheory.StaffSeeEverything` | internal/core/perm/redact.go:97-114 | for staff, redaction is the identity on objects |
| `RedactionTheory.RaisingNeverHides` | internal/core/perm/redact.go:50-95 | through `Effective` and redaction together, raising existing entries or the default never hides a path from the same subject nor changes the leaf it leads to; a document sent before is still sent exactly when it decodes or the level stays limited |
| `RedactionTheory.NewEntryDecides` | internal/core/perm/perm.go:164-194 | after a new explicit entry for a non-staff subject the document is withheld from them if and only if the entry is none |
| `RedactionTheory.NewEntryCanHide` | internal/core/perm/perm.go:164-194 | so it can hide what the world default was showing |
| `Access.ProjectForMembers` | internal/core/access/access.go:111-144 | one view per member who may read the document; it fails exactly when one member's projection does |
| `CatchUp.FanOut` | internal/transport/ws/intents.go:218-255 | the per-user payloads are those of the members who may read and see the document |
| `CatchUp.ApplyPatch` | internal/transport/ws/intents.go:176-279 | succeeds exactly when the document exists, the actor may edit it, the patch applies and every member's view can be worked out; then the frames are those of the new document, and every member who catches up before anything else changes is shown what they were sent live |
| `CatchUp.CatchUpEqualsLive` | internal/transport/ws/session.go:341-425 | with nothing changed since the commit, replay includes the event for a member exactly when live fan-out had a frame for them, with the same payload |
| `CatchUpTheory.OnlyOwnersEdit` | internal/core/access/access.go:146-166 | only staff and players at owner level may edit; reading takes a known role and a level above none |
| `CatchUpTheory.PayloadCarries` | internal/transport/ws/intents.go:236-295 | a member is sent a payload exactly when they may read the document and see it, and it carries the event's number, the document's identity, name and image, and its columns as redacted for them |
| `CatchUpTheory.AudiencesAgree` | internal/transport/ws/session.go:570-587 | the hub admits a user to a publication exactly when catch-up admits them to the event stored with the same audience |
| `CatchUpTheory.UnreadableAudienceIsEveryone` | internal/transport/ws/session.go:570-580 | an audience that is not a list of texts holds nobody back |
| `CatchUpTheory.ReplayRespectsAudience` | internal/transport/ws/session.go:351-366 | nobody outside its audience is shown an event on catch-up; one that is not about a document reaches those inside with its stored payload |
| `CatchUpTheory.ReplayWithholds` | internal/transport/ws/session.go:384-425 | an event about a document that is gone, withheld or out of sight is not shown |
| `DiceSelection.SortIndices` | internal/core/dice/dice.go:215-232 | the in-place insertion sort of indices computes the stable order |
| `DiceSelection.ApplySelection` | internal/core/dice/dice.go:215-241 | the dice kept are those the order selects |
| `DiceSelection.OrderIsSorted` | internal/core/dice/dice.go:215-232 | that order is a sorted permutation of the dice |
| `DiceSelection.SelectionIsOptimal` | internal/core/dice/dice.go:203-241 | a selection keeps the number asked for, touches no value, and has the largest (or smallest) subtotal any choice of that many dice could have |
| `DiceSelection.KeepAgreesWithDrop` | internal/core/dice/dice.go:215-241 | `kh k` and `dl (n-k)` agree on the subtotal, as do `kl k` and `dh (n-k)` |
| `Dice.EvaluateTerm` | internal/core/dice/dice.go:155-213 | a term is planned, thrown, selected and added up as specified, with its errors in the source's order |
| `DiceText.PrintedReadsBack` | internal/core/dice/dice.go:88 | every well-formed term is read as what it was printed from |
| `DiceText.ReadPrintsBack` | internal/core/dice/dice.go:88 | a text that is read is the print of what it is read as, so nothing else is a term |
| `DiceText.TermThrows` | internal/core/dice/dice.go:155-213 | a term is accepted exactly when its numbers fit, the die has 2 to 1000 faces and 1 to the budget are thrown; then it throws that many draws of that die, takes them off the budget and adds up those kept |
| `DiceText.RefusedTerm` | internal/core/dice/dice.go:169-199 | why a well-formed term is refused, in order |
| `DiceText.KeepHighest` | internal/core/dice/dice.go:215-241 | the text c d f kh k keeps the smaller of k and c dice with the largest subtotal of any as many |
| `DiceText.KeepLowest` | internal/core/dice/dice.go:215-241 | kl, the smallest |
| `DiceText.DropHighest` | internal/core/dice/dice.go:215-241 | dh, the smallest of as many as are left |
| `DiceText.DropLowest` | internal/core/dice/dice.go:215-241 | dl, the largest of as many as are left |
| `DiceText.NumberTerm` | internal/core/dice/dice.go:158-162 | digits that fit are a term of their value that throws nothing |
| `DiceText.AcceptedTerms` | internal/core/dice/dice.go:155-201 | those are all the terms there are |
| `DiceText.SingleTerm` | internal/core/dice/dice.go:90-153 | an expression of 1 to 200 characters without a sign is one term, thrown from a budget of 200, and its total that term's subtotal |
| `DiceText.NormalisedExactly` | internal/core/dice/dice.go:95 | an ASCII expression is rolled in small letters and without its blanks, wherever they are |
| `Text.DigitsAreDecimal` | internal/core/dice/dice.go:158 | every run of digits is a decimal number with zeros in front, and its value is that number |
| `TextTheory.TrimsExactly` | internal/core/dice/dice.go:95 | trimming cuts off the white space at both ends and nothing else |
| `TextTheory.Ascii` | internal/core/dice/dice.go:95 | lower case and white space within ASCII |
| `TextTheory.WithoutOnly` | internal/core/dice/dice.go:95 | removing blanks removes blanks and nothing else |
| `Dice.ThrowDice` | internal/core/dice/dice.go:188-213 | throwing, selecting in place and adding up what was kept |
| `Dice.Roll` | internal/core/dice/dice.go:90-153 | normalising, the empty and the overlong expression, then the terms |
| `Dice.RollTerms` | internal/core/dice/dice.go:105-153 | one pass with buffer, sign, total and budget equals splitting first and evaluating the pieces in order |
| `DiceTheory.SplittingLosesNothing` | internal/core/dice/dice.go:125-149 | signs and texts of the pieces joined give back the expression, up to a leading plus |
| `DiceTheory.AcceptedExpression` | internal/core/dice/dice.go:90-153 | an accepted expression has 1 to 200 characters, is spelled out by its terms, its total is the signed sum of their subtotals, and at most 200 dice are used |
| `DiceTheory.AcceptanceIgnoresTheDice` | internal/core/dice/dice.go:90-213 | whatever the dice show, an expression is accepted, or refused for the same reason |
| `DiceTheory.ThrownTermIsOptimal` | internal/core/dice/dice.go:155-213 | a term that keeps or drops dice has the best subtotal of the dice thrown |
| `Combat.RollInitiative` | internal/transport/ws/combat.go:99-116 | each listed token gets a roll of its own, in listing order |
| `Combat.Document.HandleStart` | internal/transport/ws/combat.go:55-125 | the refusals in order, then the sorted combatants at round 1, turn 0 |
| `Combat.Document.HandleNext` | internal/transport/ws/combat.go:127-158 | the turn passes on, or the round with it; refused without a running combat |
| `Combat.Document.HandleEnd` | internal/transport/ws/combat.go:160-185 | the combat becomes inactive and empty |
| `CombatOrder.StableSortIsUnique` | internal/transport/ws/combat.go:271-278 | sorting the combatants stably has exactly one result, and it is a rearrangement of them |
| `CombatOrder.SortedDescends` | internal/transport/ws/combat.go:271-278 | whoever acts later never has the higher initiative, nor at equal initiative a name earlier in the order of characters |
| `CombatOrder.TiesKeepListingOrder` | internal/transport/ws/combat.go:271-278 | combatants equal in initiative and name keep the order they were listed in |
| `CombatOrder.LessIsLexicographic` | internal/transport/ws/combat.go:276 | the order of names: the first difference decides, a prefix comes first |
| `CombatTheory.StartIsSound` | internal/transport/ws/combat.go:55-125 | a checked formula cannot fail inside the transaction; a started combat has 1 to 60 combatants, the listed tokens with their rolls, stably sorted |
| `CombatTheory.GivenFormulaIsRolled` | internal/transport/ws/combat.go:68-116 | a formula that is given is the one kept, and rolled for each of the first 60 tokens with its own dice |
| `CombatTheory.BlankFormulaIsD20` | internal/transport/ws/combat.go:68-116 | without a formula each of the first 60 tokens listed has the draw of one die of twenty faces |
| `CombatTheory.RunsStaySane` | internal/transport/ws/combat.go:85-185 | over every run of start, next and end, an active combat has 1 to 60 combatants in order and a turn among them |
| `CombatTheory.TurnsFromStart` | internal/transport/ws/combat.go:127-158 | after k advances the turn is k mod n and the round 1 + k div n |
| `CombatTheory.EveryoneActsOncePerRound` | internal/transport/ws/combat.go:127-158 | in each round each combatant has the turn after exactly one number of advances |
| `CombatTheory.EndStopsTurns` | internal/transport/ws/combat.go:127-185 | once staff has ended a combat, no turn is passed on until another is started |
| `RateLimit.Limiter.constructor` | internal/core/auth/ratelimit.go:37-46 | limits without a burst are replaced by the defaults |
| `RateLimit.Limiter.Allow` | internal/core/auth/ratelimit.go:48-66 | the loop over the keys, with its early refusal and the entries it drops |
| `RateLimit.Limiter.Fail` | internal/core/auth/ratelimit.go:68-86 | sweeping, then one more failure on every key |
| `RateLimit.Limiter.Succeed` | internal/core/auth/ratelimit.go:88-95 | the keys are forgotten |
| `RateLimit.Limiter.Sweep` | internal/core/auth/ratelimit.go:103-112 | once full, exactly the entries neither locked nor counting are removed |
| `RateLimit.LogIn` | internal/core/auth/service.go:185-214 | allow, then fail or succeed |
| `RateLimitTheory.RefusedIffLocked` | internal/core/auth/ratelimit.go:48-66 | a login is refused exactly when one of its keys is locked |
| `RateLimitTheory.CountedTogether` | internal/core/auth/ratelimit.go:114-123 | two logins are counted together exactly when they name the same user or come from the same address |
| `RateLimitTheory.SweepRemovesExactly` | internal/core/auth/ratelimit.go:103-112 | a full table loses exactly the records past their lock and past the window |
| `RateLimitTheory.LockHolds` | internal/core/auth/ratelimit.go:48-112 | a key locked until T refuses every login on it that asks before T, whatever happens in between |
| `RateLimitTheory.SuccessClears` | internal/core/auth/ratelimit.go:88-95 | an accepted login clears its own keys and unlocks nothing else |
| `RateLimitLimits.BurstCharged` | internal/core/auth/ratelimit.go:68-86 | failures within a window add up on one record, and the one that reaches the burst locks it for the lockout |
| `RateLimitTheory.FailuresAreBounded` | internal/core/auth/ratelimit.go:48-112 | with a lockout longer than the window, no window without a success on a key has more than max(burst, 2·burst−2) failures for it, after any history, and one of a single instant no more than burst |
| `RateLimitTheory.DefaultBound` | internal/core/auth/ratelimit.go:15-22 | with the default limits no five minutes without a success hold more than 14 failures for a key |
| `RateLimitLimits.BoundIsReached` | internal/core/auth/ratelimit.go:48-112 | some run reaches that bound, for every burst and every window from a single instant up |
| `RateLimitLimits.BoundedIffLockoutOutlasts` | internal/core/auth/ratelimit.go:68-86 | the bound holds for every run if and only if the lockout is longer than the window, or the window is negative |
| `Thumbnail.Average` | internal/core/asset/image.go:196-221 | each channel is the mean over the box, at least one pixel each way, cut down to eight bits; outside the source there is transparent black |
| `Thumbnail.BoxIsInside` | internal/core/asset/image.go:183-193 | every box averaged lies within the source and holds a pixel, so no read is out of bounds |
| `Thumbnail.ScaleToFit` | internal/core/asset/image.go:167-194 | every target pixel is the mean of its box, or a copy when nothing shrinks, with no read outside the source |
| `Thumbnail.MeanBetween` | internal/core/asset/image.go:196-221 | a mean lies between the bounds of what it averages, so a channel is at most 255 |
| `ThumbnailTheory.TargetFits` | internal/core/asset/image.go:167-178 | the target fits the requested edge, has at least one pixel each way, never grows, and when it shrinks its longest edge is the one asked for |
| `ThumbnailTheory.EdgesInRatio` | internal/core/asset/image.go:171-178 | each edge of a shrunk target is the whole part of edge times size over the longest edge, and at least one |
| `ThumbnailTheory.BoxInProportion` | internal/core/asset/image.go:183-193 | a source pixel is in the box at the same proportion along each edge |
| `ThumbnailTheory.BoxesTile` | internal/core/asset/image.go:183-193 | every source pixel lies in the box of exactly one target pixel |
| `ThumbnailTheory.NothingLostInScaling` | internal/core/asset/image.go:183-221 | the sums and the pixel counts behind all target pixels add up to those of the source |
| `ThumbnailTheory.ColoursStayWithin` | internal/core/asset/image.go:167-221 | every target pixel lies between the darkest and the brightest of the source, channel by channel; one colour stays that colour |
| `Slug.Slugify` | internal/transport/httpapi/worlds.go:597-620 | the loop with its flag gives the words of the text with one dash between each two |
| `Slug.SlugIsSlug` | internal/transport/httpapi/worlds.go:597-620 | only a-z, 0-9 and single inner dashes |
| `Slug.SlugKeepsLetters` | internal/transport/httpapi/worlds.go:597-620 | every letter and digit of the text is kept, in order |
| `Slug.SlugOfWord` | internal/transport/httpapi/worlds.go:597-620 | a word of ASCII letters and digits becomes itself in small letters |
| `Slug.SlugSource` | internal/transport/httpapi/worlds.go:598-601 | the fallback is used exactly when the slug asked for is blank |
| `Slug.FixedExactlyWhenSlug` | internal/transport/httpapi/worlds.go:597-620 | the texts that come out as they went in are exactly the slugs |
| `Slug.SlugifyTwice` | internal/transport/httpapi/worlds.go:597-620 | slugify is idempotent |
| `Text.DecimalReadsBack` | internal/transport/httpapi/worlds.go:588-595 | decimal printing is injective: the number can be read back |
| `Slug.NextFreeSlug` | internal/transport/httpapi/worlds.go:588-595 | stops after at most as many candidates as there are slugs taken, and one; returns the least free suffix from 2 up |
| `Slug.CreateWorld` | internal/transport/httpapi/worlds.go:152-202 | the refusals and the write, in one transaction |
| `Slug.CreateKeepsSlugs` | internal/transport/httpapi/worlds.go:184-202 | a derived slug always finds a place, a chosen one is refused exactly when taken, and slugs stay distinct and well formed |
| `Slug.SlugsStayDistinct` | internal/transport/httpapi/worlds.go:184-202 | so they are after every run of creations under fresh ids |

## Left out

- WebSocket and HTTP plumbing, cookies, logging, configuration, shutdown order: input and output.
- SQL text and the JSON functions of the databases: tables are maps, and a row patch is any function that stores the row it returns.
- Frame codecs, image codecs, password hashing, random tokens: libraries; encoding may succeed or fail, ids are fresh where stated.
- Tickets, invites, membership guards, asset quota, blob paths: single checks with no interaction between operations to prove.
- Payloads of chat, combat and door events in live and replay: they differ by design.
- Floating-point rounding in sight and scaling: exact reals and quotients; a rounded scale can make a thumbnail edge one pixel shorter.
- Machine-integer overflow: dice totals, averaged sums and event sequences are mathematical integers; only the parsing of a dice number checks the 64-bit range.
- Bytes and characters: lengths count characters where the source counts bytes, which differ only outside ASCII.
- JSON decoding into structs matches field names exactly, not case-insensitively.
- `StaticPolicy` and `PathsOf`: the field policy is an arbitrary function, which covers every table of rules.
- Several sessions of one user: the protocol follows one session at a time; the others are among those who commit and publish. The publication channel has no capacity here.
- Whether a queued resync is written: not claimed, since a push and a close can fall between an empty pop and the test for closing.
- Two logins at once: limiter runs are sequential, each login asking and settling in turn.
- The body of the library's stable sort: any stable sort has the one result proved.
- Edits of the combat document by other intents: only start, next and end act on it.
