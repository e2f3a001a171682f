# Virtual Office: a verified model of its hard parts

A Dafny 4.11 model of the parts of Virtual Office whose correctness is not visible in any one
function: the graph of arrows between departments, the event stream that keeps a canvas up to date,
the conflict check on edits, the rotation of a bench, the transport and session to an MCP server,
budget periods and warnings, the secrets vault, the spend report with its spreadsheet, and the
names of tools. One module per file; `dafny verify dfyconfig.toml` checks all of them.

Where the program changes state step by step the model is a class or a method with a loop, proved
against a specification function; what the program promises is then proved about that function, or
about every run of it.

| module | what it is about |
|---|---|
| `ConnectionGraph`, `Connections`, `OfficeConnections` | Drawing, changing, deleting and importing arrows. A depth-first search decides reachability, and checking one arrow at a time is proved to be the same as an order-free statement about the whole graph. |
| `EventLog`, `OfficeStream`, `StreamProtocol` | The bounded log against the unbounded history it is a tail of, the client's reconnecting socket, and both together: publishing, accepting, delivering, losing the connection, timers, closing. |
| `ConflictCheck` | PATCH with a claimed offset, beside every other write to a department. |
| `Bench` | Whose turn it is, read off past placements, as a refinement of a stored cursor, and its fairness. |
| `StdioTransport`, `McpSession` | Lines out of chunks, answers matched to requests, the handshake, paging. |
| `Budget`, `Spending`, `BudgetWarnings` | Local midnight across a change of offset; what the server counts as spent; announcing each threshold once without a flag. |
| `Vault` | Puts, updates, deletions and key rotation over an ideal authenticated cipher. |
| `UsageReport`, `Csv` | Conservation of money and calls across groupings; quoting that reads back. |
| `ToolNames` | Wire names, splitting them, and routing by them. |
| `Shared`, `Sorting`, `Pages` | Values, JSON and error lists the others use; the stable sort; what a `list` of the store hands over. |

## Where the code and its promises part

The model keeps the code as it is in each of these, and a lemma says exactly when the promise holds.

- The canvas removes a department together with its arrows; the server's own deletion of a
  department (`apps/server/src/server.ts:812-819`) leaves the arrows in place. The graph then stays
  well-formed if and only if no arrow touches the department (`RowDeletionNeedsNoArrows`), and a run
  with such deletions in it, creating arrows beside a page of others at most, stays well-formed
  throughout exactly then (`RunKeepsWellFormed`).
- A `list` of the store that names no limit hands over the first 50 entities by id
  (`packages/storage/src/relational/types.ts:31-45`, `packages/storage/src/relational/types.ts:104`,
  `packages/storage/src/relational/query-memory.ts:20-44`), and the server takes these for all there
  are.
  - Spending (`apps/server/src/server.ts:1374`): a record past the page is never counted, and one
    before its end pushes another off it (`SpentAfterPut`). Some record of no negative cost makes a
    level seem to have spent less if and only if 50 or more records are filed under the office and the
    50th costs the level something (`SpendingCanSeemToFall`); a threshold can then be announced twice
    (`AFullPageAnnouncesTwice`). That standings only rise and are announced once holds for an office
    with at most 50 records. A room's spending is that of the first 50 of its staff
    (`WhoPays`).
  - Arrows (`apps/server/src/server.ts:2056-2057`): some arrow that spoils the graph is accepted if and
    only if an arrow past the page, or a path that needs one, joins departments on theirs
    (`SomeArrowSpoilsIffPagesOverlook`), which with at most 50 departments means that there are more
    than 50 arrows (`SomeArrowSpoilsIffMoreThanAPage`, `AnArrowIsAcceptedTwice`).
  - Benches (`apps/server/src/server.ts:1620-1625`): the turn is read off the first 50 tasks of the
    room by id. It is fair up to there (`AcceptedBenchIsFairOnOnePage`); past it, work under later ids
    does not pass the turn on (`PastAPageTheTurnStands`).
- Each threshold is meant to be announced once. A usage record is filed under the office its own
  attribution names, and nothing compares that with the route it is posted to, whose levels are the
  only ones compared (`apps/server/src/server.ts:1463-1485`,
  `packages/core/src/usage/usage-record.ts:53-82`). While the office has at most 50 records, the
  record that takes a level to a standing is announced if and only if the two agree
  (`AnnouncedIffFiledWhereItIsPosted`); when they do not, no later post announces that standing
  either (`NothingElseGoesUnannounced`, `MisroutedSpendIsSilent`).
- `changedSince` promises to refuse whenever nobody can prove the client is up to date. A claimed
  offset beyond anything published is never refused (`OffsetsAheadAreNeverRefused`), so the
  guarantee of a PATCH is stated for offsets from 0 to what has been published.
- A budget period can seem to begin after an instant it holds. That happens exactly when the zone
  changes its offset at or before the date's midnight in UTC and the local midnight comes twice or
  falls strictly inside the jump (`StartsLate`, `StartIsNeverLateUnless`; `ADayCanStartLate` and
  `ASkippedDayCanStartLate` are one of each).
- A skipped midnight gives an instant within the length of the jump from the jump, not the jump
  itself (`SkippedStaysNearTheJump`).
- The comment on `toolWireName` rests unambiguous splitting on tool names without a separator. It
  rests on connector names alone: the tool may contain separators (`SplitUndoesWireName`,
  `BrokerReadsTheSameTool`).

## Model

| member | source | states |
|---|---|---|
| ConnectionGraph.SplitAtNewEdge | packages/core/src/connection/connection.ts:147-152 | A walk through a graph and one new edge either avoids the edge or splits into a walk to its start and a walk from its end. |
| ConnectionGraph.InsertionKeepsAcyclic | packages/core/src/connection/connection.ts:147-152 | An acyclic graph stays acyclic under a new edge if and only if no path leads from the edge's end back to its start. |
| ConnectionGraph.FitsIsGlobal | packages/core/src/connection/connection.ts:116-154 | Beside a well-formed graph, what is asked of one edge holds if and only if the graph with the edge is well-formed as a whole: known ends, no self-edge, no two same edges, no cycle. |
| ConnectionGraph.KeptIsWellFormed | packages/core/src/connection/connection.ts:344-349 | The edges accepted one at a time always form a well-formed graph. |
| ConnectionGraph.AllKeptIffWellFormed | packages/core/src/connection/connection.ts:338-351 | Taking edges one at a time keeps all of them if and only if the whole list is well-formed. |
| ConnectionGraph.KeptIsMaximal | packages/core/src/connection/connection.ts:338-351 | No larger choice from the list than the accepted edges is well-formed. |
| ConnectionGraph.SubBagWellFormed | packages/core/src/connection/connection.ts:116-154 | Any choice of the edges of a well-formed graph, in any order, is well-formed while its ends are known. |
| ConnectionGraph.WellFormedIgnoresOrder | packages/core/src/connection/connection.ts:338-351 | Two lists with the same edges in different orders are both well-formed or both not. |
| ConnectionGraph.WellFormedInFull | packages/core/src/connection/connection.ts:116-154 | A graph is well-formed if and only if every edge joins two different known departments, no two edges say the same, and no walk of edges of one acyclic kind comes back to where it began. |
| ConnectionGraph.PartialCheckFailsIffItOverlooks | packages/core/src/connection/connection.ts:116-154 | Checked against only some edges and some departments of a well-formed graph, an edge that spoils the graph passes for some edge, if and only if an unread edge, or a path that cannot be followed without one, joins two of the departments read. |
| ConnectionGraph.UnreadEdgesAreOverlooked | packages/core/src/connection/connection.ts:116-154 | With every department read, that is if and only if some edge is not read. |
| Connections.AdjacencyOf | packages/core/src/connection/connection.ts:94-100 | The map built holds exactly the edges of the kind asked for. |
| Connections.HasPath | packages/core/src/connection/connection.ts:87-110 | The search ends, and returns true if and only if a possibly empty directed path of the kind exists. |
| Connections.ValidateEdge | packages/core/src/connection/connection.ts:112-154 | The errors in their order and wording; none if and only if the edge fits beside those before it. |
| Connections.UnknownEndsAreReported | packages/core/src/connection/connection.ts:134-138 | An end that is no known department is reported under its own path with its own text, first the start and then the end. |
| Connections.EdgeErrorsSay | packages/core/src/connection/connection.ts:116-154 | The wording and the path of every other problem of an edge: its kind, its two ends being one, its being there already, its closing a cycle. |
| Connections.NoErrorIffKept | packages/core/src/connection/connection.ts:344-349 | The import check reports nothing about an edge if and only if the edge is one of those kept. |
| Connections.SilentIffWellFormed | packages/core/src/connection/connection.ts:338-351 | The import check reports nothing at all if and only if the whole list is well-formed. |
| Connections.BlamelessEdgesAreMaximal | packages/core/src/connection/connection.ts:338-351 | When there are errors, the edges without one form a well-formed graph that no other edge of the list can join. |
| Connections.VerdictIgnoresOrder | packages/core/src/connection/connection.ts:338-351 | Whether an import passes does not depend on the order of the list. |
| Connections.ValidateConnectionGraph | packages/core/src/connection/connection.ts:338-351 | The loop's errors are those of each edge against the accepted ones before it; none if and only if the graph is well-formed. |
| Connections.AssignmentIsOneAnswer | packages/core/src/connection/connection.ts:192-230 | Who takes the work is accepted if and only if nothing is said, or exactly one of the three answers is given and it is complete. |
| Connections.AssignmentErrorsSay | packages/core/src/connection/connection.ts:192-230 | Otherwise one thing is said, under the path of the field it is about. |
| Connections.UnreportedRulesAreRead | packages/core/src/connection/connection.ts:163-165 | An accepted handoff or watching arrow has rules the engine will be able to read, and a refused one has not. |
| Connections.WatchesListMoments | packages/core/src/connection/connection.ts:242-262 | The rules of a watching arrow are accepted if and only if they list at least one moment and only known ones and say properly who takes the work, and they stand for just these. |
| Connections.WatchErrorsSay | packages/core/src/connection/connection.ts:242-262 | What is said of a watching arrow's rules otherwise, under the path of the rules. |
| Connections.SwitchAndRulesErrorsSay | packages/core/src/connection/connection.ts:270-285 | What is said of a switch, of rules that are no record, and of a handoff's rules, each under its own path. |
| Connections.CreateConnection | packages/core/src/connection/connection.ts:264-297 | Every problem of the edge, the switch and the rules together, or the connection asked for with its defaults. |
| Connections.UpdateConnection | packages/core/src/connection/connection.ts:305-336 | Accepted exactly when neither the switch nor the rules draw an error, and otherwise with those errors; a changed arrow has the new switch and rules, which can be read, and keeps everything else. |
| Connections.ChangesCompose | packages/core/src/connection/connection.ts:299-336 | Absent fields are left alone, and two accepted changes in a row are one change saying both. |
| OfficeConnections.IdsStayInOrder | packages/storage/src/relational/query-memory.ts:26-33 | Whatever is done, the arrows stay in the order of their ids, each its own, so that a page is the first of them. |
| OfficeConnections.CreateOutcome | apps/server/src/server.ts:2056-2081 | A creation leaves a well-formed office so exactly when it is refused or the arrow fits beside all the arrows there are, read or not. |
| OfficeConnections.StepKeepsWellFormed | packages/core/src/connection/connection.ts:264-336 | Creating an arrow beside a page of others at most, updating and deleting one, and adding and removing a department keep the graph well-formed, ids distinct and rules readable; deleting a department's row does so if and only if no arrow touches it. |
| OfficeConnections.RunKeepsWellFormed | apps/server/src/server.ts:2051-2110 | Every run of these in which arrows are created beside a page of others at most keeps the office well-formed throughout, if and only if no arrow touches a department when its row is deleted. |
| OfficeConnections.SomeArrowSpoilsIffPagesOverlook | apps/server/src/server.ts:2056-2077 | Some arrow that would spoil a well-formed office is accepted, if and only if the pages of departments and arrows it is checked against overlook an arrow, or a path, between departments they hold. |
| OfficeConnections.SomeArrowSpoilsIffMoreThanAPage | apps/server/src/server.ts:2056-2077 | With no more departments than a page, that is if and only if there are more arrows than a page. |
| OfficeConnections.AnArrowIsAcceptedTwice | apps/server/src/server.ts:2056-2077 | In a well-formed office of fifty departments and fifty-one arrows the last arrow is accepted a second time. |
| OfficeConnections.RowDeletionNeedsNoArrows | apps/server/src/server.ts:812-819 | Deleting only the department's row keeps the graph well-formed if and only if no arrow touches it. |
| Connections.InputFrom | apps/server/src/server.ts:2062-2071 | What a request body asks for: `fromId` is the start and `toId` the end, and one that is no text names no department; the kind is the one its text names, if and only if it names one; the switch and the rules are the body's own, and a switch that is no boolean is not given. |
| OfficeConnections.OfficeGraph.Create | apps/server/src/server.ts:2056-2081 | The arrow the body asks for, from its `fromId` to its `toId`, of the kind it names, with its switch and rules or their defaults, is added in its place exactly when it has no errors beside the first page of departments and of arrows, and otherwise those are the errors; beside at most a page of arrows a well-formed office stays so. |
| OfficeConnections.OfficeGraph.Update | apps/server/src/server.ts:2084-2101 | Missing exactly for an unknown id, then a conflict exactly for a stale offset, then the errors or the change of that very arrow; only a change changes the state, and a well-formed office stays so. |
| OfficeConnections.OfficeGraph.Delete | apps/server/src/server.ts:2103-2110 | Found exactly when an arrow has the id; then exactly that arrow is gone, and a well-formed office stays so. |
| OfficeConnections.OfficeGraph.RemoveDepartment | apps/web/src/office/office-store.ts:780-818 | It goes through exactly for a known department with nobody in it, and takes exactly the arrows that touch it along. |
| OfficeConnections.OfficeGraph.AddDepartment | apps/server/src/server.ts:725-751 | A department under a new id joins the office, and a well-formed one stays so. |
| OfficeConnections.OfficeGraph.DeleteRow | apps/server/src/server.ts:812-819 | The row is gone and every arrow stays; a well-formed office stays so if and only if no arrow touched the department. |
| EventLog.ReplayIsFullSuffix | apps/server/src/events.ts:70-81 | For an offset some client can have seen, a replay is possible if and only if nothing after it was discarded, and is then the full suffix of the history. |
| EventLog.ChangedAfterIs | apps/server/src/events.ts:90-93 | An entity is changed after an offset if and only if an event at a later offset names it by the id in its data. |
| EventLog.ChangedMeansLostOrChanged | apps/server/src/events.ts:83-93 | The bounded log says that something changed if and only if something after the offset was discarded or the full history changes it after the offset. |
| EventLog.OffsetsAheadAreNeverRefused | apps/server/src/events.ts:83-93 | An offset beyond everything published is never answered with a change. |
| EventLog.PublishMirrors | apps/server/src/events.ts:46-58 | Pushing and trimming keeps a channel the last events of its history, with consecutive offsets. |
| EventLog.OfficeEventLog.constructor | apps/server/src/events.ts:41-44 | An empty log whose limit is the one asked for, at least 1, or 500. |
| EventLog.OfficeEventLog.Publish | apps/server/src/events.ts:46-68 | The event gets the next offset of its own office, no other history changes, and every listener of the office hears it once. |
| EventLog.OfficeEventLog.Push | apps/server/src/events.ts:54-58 | The office's channel stays the bounded image of its grown history. |
| EventLog.OfficeEventLog.Tell | apps/server/src/events.ts:60-66 | Each listener is handed the event exactly once and nobody else is. |
| EventLog.OfficeEventLog.Since | apps/server/src/events.ts:70-73 | The kept events after the offset, and no history changes. |
| EventLog.OfficeEventLog.CanReplayFrom | apps/server/src/events.ts:75-81 | Whether the kept tail of the history reaches back to the offset. |
| EventLog.OfficeEventLog.ChangedSince | apps/server/src/events.ts:83-93 | For an offset up to what was published: true if and only if history was lost or the entity changed after it. |
| EventLog.OfficeEventLog.Subscribe | apps/server/src/events.ts:95-97 | The listener joins its own office's listeners, and nothing else changes. |
| EventLog.OfficeEventLog.Unsubscribe | apps/server/src/events.ts:98 | The listener leaves its own office's listeners, and nothing else changes. |
| EventLog.OfficeEventLog.ChannelFor | apps/server/src/events.ts:101-107 | The channel of the office, made empty when there was none; no history or listener changes. |
| OfficeStream.StepKeepsOneHope | apps/web/src/api/stream.ts:51-103 | Every callback keeps a wanted stream with exactly one pending timer or one socket that has not retried. |
| OfficeStream.EveryRunHasOneHope | apps/web/src/api/stream.ts:80-92 | So it is after any run, however often sockets report that they have gone. |
| OfficeStream.NothingOpensAfterClose | apps/web/src/api/stream.ts:97-103 | After `close`, no run opens another socket. |
| OfficeStream.AGoneSocketIsReplaced | apps/web/src/api/stream.ts:80-92 | The first report that a socket of a wanted stream has gone leaves one timer, and that timer opens the next socket from the offset of that moment. |
| OfficeStream.Stream.constructor | apps/web/src/api/stream.ts:47-95 | A new stream has asked for one socket and satisfies the invariant. |
| OfficeStream.Stream.Connect | apps/web/src/api/stream.ts:51-59 | A wanted stream opens one socket, resuming from the offset of that moment; an unwanted one opens none. |
| OfficeStream.Stream.OnMessage | apps/web/src/api/stream.ts:61-78 | A gap notice is reported as one, a record with a numeric offset is handed over, and anything else does nothing. |
| OfficeStream.Stream.OnGone | apps/web/src/api/stream.ts:80-92 | The first report of a socket's end replaces the timer, later ones do nothing, and the invariant is kept. |
| OfficeStream.Stream.OnTimer | apps/web/src/api/stream.ts:89 | A timer that fires is no longer pending and connects again, and the invariant is kept. |
| OfficeStream.Stream.Close | apps/web/src/api/stream.ts:97-103 | Nothing is wanted and nothing is pending any more, and the latest socket is closed. |
| StreamProtocol.AcceptedCarriesRun | apps/server/src/server.ts:621-633 | What a socket is sent on being accepted is a notice exactly when something after the offset was let go, and otherwise the consecutive events after it up to the newest, so that subscribing in the same step leaves no hole. |
| StreamProtocol.DeliverAdvances | apps/web/src/api/stream.ts:61-78 | A delivery moves its socket's position on with everything up to it handed over or covered by a notice. |
| StreamProtocol.StepKeeps | apps/server/src/server.ts:611-636 | The protocol's invariant is kept by every step: publish, accept, deliver, lose, unsubscribe, apply, retry, timer, close. |
| StreamProtocol.RunKeeps | apps/server/src/server.ts:611-636 | And by every run. |
| StreamProtocol.ServerSteps | apps/server/src/server.ts:611-636 | Publishing adds the event under the next offset; a socket is accepted with its catch-up and subscribed; a lost or closed one gets nothing more; no other socket changes. |
| StreamProtocol.ClientSteps | apps/web/src/api/stream.ts:51-92 | A wanted socket that goes leaves one timer, and a timer asks for one new socket, from what was seen by then. |
| StreamProtocol.ClosingStops | apps/web/src/api/stream.ts:97-103 | Closing leaves nothing wanted and no timer. |
| StreamProtocol.RunIsItsSteps | apps/server/src/server.ts:611-636 | A run is its steps, one after another. |
| StreamProtocol.NothingSeenWasMissed | apps/web/src/office/office-store.ts:1377-1380 | In every run, each offset up to `seenOffset` was handed over as the very event published under it, or is covered by a received gap notice sent after it was published. |
| StreamProtocol.SeenNeverFalls | apps/web/src/office/office-store.ts:1377-1380 | No step lowers `seenOffset`, and finishing with an event takes it to that event's offset at least. |
| StreamProtocol.SeenIsWhatWasFinished | apps/web/src/office/office-store.ts:1377-1380 | In every run, every event handed over and finished with is at or below `seenOffset`, which is 0 or the offset of an event handed over. |
| StreamProtocol.DeliveringCatchesUp | apps/server/src/server.ts:611-636 | Once everything sent on a subscribed socket has arrived, every event published is handed over or covered by a notice. |
| StreamProtocol.FinishingCatchesUp | apps/web/src/office/office-store.ts:1377-1380 | A client that has also finished with all of it has recorded the newest event, or was told of a gap after it. |
| StreamProtocol.EachSocketCarriesARun | apps/server/src/server.ts:611-636 | In every run, a socket carries at most one notice and then consecutive events without gap or repeat; while it is subscribed, all of them up to the newest. |
| StreamProtocol.StreamStaysAlive | apps/web/src/api/stream.ts:80-103 | In every run of the whole protocol a wanted stream has exactly one way to go on, and a closed one has no timer. |
| StreamProtocol.WireIsUnderstood | apps/web/src/api/stream.ts:70-77 | The client takes what the server writes for a notice as a notice and what it writes for an event as that event, whatever the event's data. |
| StreamProtocol.AcceptSocket | apps/server/src/server.ts:611-636 | The handler sends the catch-up for the offset asked for, then subscribes the socket, and changes no history. |
| ConflictCheck.UnchangedIsCurrent | apps/server/src/events.ts:90-93 | An entity no event after an offset concerns is still what it was at that offset. |
| ConflictCheck.RecordedGrows | apps/server/src/server.ts:791-792 | Publishing about the one entity written keeps the record of past stores true of the history. |
| ConflictCheck.DepartmentServer.Write | apps/server/src/server.ts:791-792 | One event and one store go on record for the office, and nothing for any other. |
| ConflictCheck.DepartmentServer.PublishWith | apps/server/src/server.ts:791-792 | A write that touches only what its event says keeps the record true, every event published before, and what was current at every earlier offset of every office. |
| ConflictCheck.DepartmentServer.WriteAndPublish | apps/server/src/server.ts:791-792 | The write, and one event whose data is the kind of change and the entity's id; the past is kept. |
| ConflictCheck.DepartmentServer.PublishOther | apps/server/src/server.ts:2103-2110 | An event about something else changes no department and keeps the past. |
| ConflictCheck.DepartmentServer.Create | apps/server/src/server.ts:725-751 | A new department is stored and announced by one `department.created` about it; the past is kept. |
| ConflictCheck.DepartmentServer.IsStale | apps/server/src/server.ts:764-770 | Stale if and only if history was lost or the department changed after the offset; one that is not stale is what was current at that offset. |
| ConflictCheck.DepartmentServer.Save | apps/server/src/server.ts:791-793 | Exactly this department has the new content, announced by one `department.updated` about it; the past is kept. |
| ConflictCheck.DepartmentServer.Patch | apps/server/src/server.ts:760-794 | Refused as stale if and only if history was lost or this department changed after the claimed offset; what is saved is the edit of exactly the value that was current at that offset. Like every method of the class it keeps what was published and what was current at every earlier offset, so that this holds in every serial run. |
| ConflictCheck.DepartmentServer.PutRunState | apps/server/src/server.ts:796-810 | The switch never conflicts, is refused exactly for an unknown state, and is announced like any other write; the past is kept. |
| ConflictCheck.DepartmentServer.Delete | apps/server/src/server.ts:812-819 | Exactly the department is gone, announced by one `department.deleted` about it; the past is kept. |
| Bench.ChoiceIsAmongActive | packages/core/src/department/bench.ts:134-152 | Work is placed with nobody exactly when no member can take it, otherwise with one active member, or with all of them for a shootout. |
| Bench.TurnIsTheBenchInOrder | packages/core/src/department/bench.ts:79-96 | The turn is every member of the bench who is active, once, in the order of the bench, and a shootout goes to exactly these. |
| Bench.PlacedWithWhoeverIsNext | packages/core/src/department/bench.ts:134-152 | For a bench that is no shootout, work placed as `placeOnBench` answers goes to whoever is next. |
| Bench.NewestIsNewest | packages/core/src/department/bench.ts:98-108 | The placement the turn is read from belongs to the bench and none of the bench's is newer. |
| Bench.NothingToFollowStartsAtTop | packages/core/src/department/bench.ts:110-117 | When the newest placement reached nobody, or somebody who cannot work, or there was none, the turn starts at the top. |
| Bench.TurnIgnoresOrder | packages/core/src/department/bench.ts:98-108 | The answer does not depend on the order the placements are handed over in. |
| Bench.TurnPasses | packages/core/src/department/bench.ts:86-118 | A placement newer than the rest passes the turn to the next member, round the end. |
| Bench.OthersDoNotMatter | packages/core/src/department/bench.ts:65-71 | Placements of other benches do not move the turn. |
| Bench.DerivedTurnIsCursor | packages/core/src/department/bench.ts:86-118 | Over any run with an unchanged roster, the derived turn is a stored cursor: it hands out what the cursor hands out and points where the cursor points, whatever is interleaved. |
| Bench.RotationIsEven | packages/core/src/department/bench.ts:86-118 | Over any number of placements, two members' counts differ by at most one. |
| Bench.RotationIsFair | packages/core/src/department/bench.ts:86-118 | Any m consecutive placements give each of the m members exactly one. |
| Bench.AcceptedBenchIsFair | packages/core/src/department/bench.ts:156-223 | Both hold for every bench of a list that passes the shape check, over every run in which each piece of work goes where `placeOnBench` says, given all placements before it. |
| Bench.OnePageIsEverything | apps/server/src/server.ts:1620-1625 | While the work of a room fits a page, what `placeOnBench` answers on what the server hands over is what it answers on everything. |
| Bench.AcceptedBenchIsFairOnOnePage | apps/server/src/server.ts:1620-1625 | Such a bench is fair at the server, where `placeOnBench` is given a page of the room's work, over every run that ends with a page of work at most, or one piece more. |
| Bench.PastAPageTheTurnStands | apps/server/src/server.ts:1620-1625 | In a room with a page of work or more, work placed under a later id does not pass the turn on. |
| Bench.MembersCheck | packages/core/src/department/bench.ts:196-210 | A bench's members pass if and only if nobody is on it twice or was seated before. |
| Bench.MemberErrorSays | packages/core/src/department/bench.ts:196-210 | Whoever is named a second time is reported where that stands, with the bench they were first named on. |
| Bench.ShapeIffNoErrors | packages/core/src/department/bench.ts:167-223 | The checks find nothing if and only if every bench is sound, ids are distinct, no judge judges their own bench and nobody has two seats anywhere. |
| Bench.OwnErrorsSay | packages/core/src/department/bench.ts:172-195 | What is said of one bench: exactly the errors for its name, id, strategy and judge, each under its own path. |
| Bench.SeatMembers | packages/core/src/department/bench.ts:196-210 | The loop reports and seats as specified. |
| Bench.CheckBench | packages/core/src/department/bench.ts:172-211 | One bench's errors, and the ids and seats taken after it. |
| Bench.ValidateBenchShape | packages/core/src/department/bench.ts:167-223 | Accepted if and only if the list has the shape, and then the benches as given with names trimmed; otherwise the errors. |
| StdioTransport.CutLosesNothing | packages/connectors/src/mcp/stdio.ts:112-120 | The lines with their newlines put back, and the rest, are the stream again. |
| StdioTransport.CutIsUnique | packages/connectors/src/mcp/stdio.ts:112-120 | There is only one way to cut a stream into lines and a rest without a newline. |
| StdioTransport.FramingIsTheWholeStream | packages/connectors/src/mcp/stdio.ts:112-120 | The transport's invariant says exactly that the lines taken are the newline-terminated lines of everything received and the buffer is the remainder. |
| StdioTransport.ChunkBoundariesVanish | packages/connectors/src/mcp/stdio.ts:112-120 | Going on from the buffer with one more chunk is reading the whole stream. |
| StdioTransport.FeedingIsTakingTheLines | packages/connectors/src/mcp/stdio.ts:112-120 | Whatever was settled, told and kept back after any chunks is what taking the lines of the whole stream comes to. |
| StdioTransport.ChunkingSettlesNothingElse | packages/connectors/src/mcp/stdio.ts:112-120 | Two ways of cutting one stream settle the same requests by the same answers and tell the same notifications. |
| StdioTransport.TookOnlyAdds | packages/connectors/src/mcp/stdio.ts:65-95 | A line never changes what was settled or told before, and settles only with the message it carries. |
| StdioTransport.TookKeepsMatching | packages/connectors/src/mcp/stdio.ts:91-94 | A line settles at most the request whose id it bears; the books stay matched. |
| StdioTransport.TookIsRight | packages/connectors/src/mcp/stdio.ts:65-95 | What a line makes of the books is exactly that: an answer to a waiting request settles it and no other, a call without an id is told once, anything else is ignored. |
| StdioTransport.FirstAnswerSettles | packages/connectors/src/mcp/stdio.ts:91-94 | A waiting request is settled by the first of the lines that bears its id, with that line's message. |
| StdioTransport.LinesSettle | packages/connectors/src/mcp/stdio.ts:112-120 | So every request that waited and has an answer among the lines completed is settled by the first of them. |
| StdioTransport.KeepingTheEnd | packages/connectors/src/mcp/stdio.ts:123-125 | Keeping the end of the kept end and a chunk is keeping the end of everything. |
| StdioTransport.AskKeepsMatching | packages/connectors/src/mcp/stdio.ts:157-159 | A request with a new id joins those waiting and displaces nobody. |
| StdioTransport.SettleKeepsMatching | packages/connectors/src/mcp/stdio.ts:91-94 | Settling a request under its own id keeps every other one settled or waiting, and not both. |
| StdioTransport.RejectAllKeepsMatching | packages/connectors/src/mcp/stdio.ts:58-63 | Rejecting all that wait leaves nothing unsettled. |
| StdioTransport.Transport.Take | packages/connectors/src/mcp/stdio.ts:65-95 | A line that bears the id of a waiting request settles it with the very message and ends its waiting; one that names a method and has no id is told exactly once; any other line changes nothing. |
| StdioTransport.Transport.OnStdout | packages/connectors/src/mcp/stdio.ts:112-120 | Every line the chunk completes is taken in order, every waiting request with an answer among them is settled by the first of them, the rest is kept, and the framing and matching invariants hold. |
| StdioTransport.Transport.OnStderr | packages/connectors/src/mcp/stdio.ts:122-125 | What is kept is always the last 2000 characters ever received. |
| StdioTransport.Transport.Fail | packages/connectors/src/mcp/stdio.ts:58-63 | Nothing waits any longer, every request that waited and was not settled is rejected with the reason and the end of what the process said on its error output, and what was settled stays. |
| StdioTransport.Transport.OnGone | packages/connectors/src/mcp/stdio.ts:127-136 | After the process has gone every request is settled, those only now with what it ended of, none waits, and there is no process. |
| StdioTransport.Transport.Start | packages/connectors/src/mcp/stdio.ts:97-104 | A process is started once, for the first message, and never again after it has gone. |
| StdioTransport.Transport.Request | packages/connectors/src/mcp/stdio.ts:157-165 | The request waits under its id, or, once the process has gone, is rejected at once, starts nothing and leaves nobody waiting. |
| StdioTransport.Transport.OnWriteError | packages/connectors/src/mcp/stdio.ts:160-163 | The request no longer waits and is rejected unless it was settled before. |
| StdioTransport.Transport.Close | packages/connectors/src/mcp/stdio.ts:175-178 | The child is let go of, and ended when there was one. |
| McpSession.ToolsComeAfterHandshake | packages/connectors/src/mcp/session.ts:187-210 | `initialize` is sent first, `notifications/initialized` second, and tool requests are exactly what comes after, as the Lifecycle section of the MCP 2025-06-18 specification asks. |
| McpSession.IdsNeverRepeat | packages/connectors/src/mcp/session.ts:171-177 | Request ids increase strictly in the order they are sent. |
| McpSession.IdsAreCarried | packages/connectors/src/mcp/session.ts:171-177 | Every request sent is carried by the transport under its own id. |
| McpSession.TransportSeesNoIdTwice | packages/connectors/src/mcp/session.ts:171-177 | A session meets the condition under which the transport settles every request once. |
| McpSession.PagingEnds | packages/connectors/src/mcp/session.ts:215-233 | Following pages stops within 20 of them, at a page that is the last, repeats its cursor or is refused, with the tools of exactly the pages seen, in order. |
| McpSession.LastPageIs | packages/connectors/src/mcp/session.ts:226-230 | A page is the last if and only if it names no next cursor in a non-empty text, or the very one the page before it named. |
| McpSession.PagesAreAskedForInOrder | packages/connectors/src/mcp/session.ts:215-233 | However other requests of the session come in between, every page is asked for, each under a higher id than the page before it. |
| McpSession.PageRequestIs | packages/connectors/src/mcp/session.ts:219-223 | The first page is asked for with no cursor, every later one with the text the page before it named as `nextCursor`. |
| McpSession.RequestsAre | packages/connectors/src/mcp/session.ts:235-237 | What other calls ask for meanwhile goes out in order, each under the next id and its own method. |
| McpSession.ToolIs | packages/connectors/src/mcp/session.ts:144-157 | An entry with a name is a tool with that name, its description if that is a non-empty text and its schema or an empty one; an entry without a name is none. |
| McpSession.ToolsOneMore | packages/connectors/src/mcp/session.ts:224-227 | A page's tools are those of its entries, in order. |
| McpSession.Session.Ask | packages/connectors/src/mcp/session.ts:171-177 | The request goes out under the next id, and after it the one after that is next. |
| McpSession.Session.Begin | packages/connectors/src/mcp/session.ts:187-194 | `initialize` is sent once, with the version, the name and the version of this client, however many calls ask for it. |
| McpSession.Session.OnInitializeReply | packages/connectors/src/mcp/session.ts:195-207 | The announcement follows exactly when the answer names no version or a known one, which is then the version agreed; otherwise nothing is sent and the handshake is broken. |
| McpSession.Session.OnAnnounced | packages/connectors/src/mcp/session.ts:206-207 | Only a sent announcement makes the session ready. |
| McpSession.Session.CallTool | packages/connectors/src/mcp/session.ts:235-237 | A call is sent exactly when the handshake succeeded. |
| McpSession.Session.ListTools | packages/connectors/src/mcp/session.ts:215-233 | The loop asks for each page with the cursor the page before it named, whatever other calls send in between, and returns what following the pages comes to. |
| Budget.StandingIsByThresholds | packages/core/src/budget/budget.ts:36-52 | Over exactly from the limit on, warned exactly from the warning up to the limit; ignoring a warning above the limit changes no standing. |
| Budget.SpendingMoreNeverHelps | packages/core/src/budget/budget.ts:43-52 | Spending more never improves a standing. |
| Budget.InstantOf | packages/core/src/budget/budget.ts:107-114 | The loop is the two corrections by the zone's offset. |
| Budget.PeriodStart | packages/core/src/budget/budget.ts:54-67 | The start is that of the date the office's clocks show, or for a month of the first of that date's month: with at most one change of offset nearby, that date's midnight if and only if it is not skipped, and never after `at` unless the change is one `StartsLate` names. Every instant of one local day, or month, has the same start. |
| Budget.TwoPassIs | packages/core/src/budget/budget.ts:100-114 | Which instant the two passes give: midnight by the offset before the change, or by the one after it, by the side of the change the first guess falls on. |
| Budget.StartsKeepOrder | packages/core/src/budget/budget.ts:54-67 | A later date never starts earlier, and starts later unless the clocks jump over a whole day. |
| Budget.MonthsStartNoLater | packages/core/src/budget/budget.ts:62-67 | A month never starts later than any of its days. |
| Budget.LandsOnMidnight | packages/core/src/budget/budget.ts:100-114 | With at most one change of offset nearby, the two passes land exactly on local midnight if and only if there is one, which is if and only if it is not skipped. |
| Budget.SkippedStaysNearTheJump | packages/core/src/budget/budget.ts:100-114 | When midnight is skipped the result is within the length of the jump from the jump. |
| Budget.StartIsNeverLateUnless | packages/core/src/budget/budget.ts:54-67 | A period's start is no later than any instant it holds, if and only if the change is not one of those `StartsLate` names. |
| Budget.ADayCanStartLate | packages/core/src/budget/budget.ts:100-114 | A zone whose clocks go back from one o'clock to midnight makes a day seem to start an hour into itself. |
| Budget.ASkippedDayCanStartLate | packages/core/src/budget/budget.ts:100-114 | A zone whose clocks jump from half past eleven to half past midnight makes a day seem to start half an hour into itself. |
| Pages.PageAfterInsert | packages/storage/src/relational/query-memory.ts:26-44 | One more entity joins a page that is not full; past a full page it leaves it as it was, and before the last on it, it pushes that one off. |
| Pages.PageComesFirst | packages/storage/src/relational/types.ts:104 | A page is what comes first, and all of it up to fifty. |
| Pages.OnePageOfIds | packages/storage/src/relational/query-memory.ts:26-44 | A page of ids holds them all when there are no more than a page. |
| Spending.SpentFor | apps/server/src/server.ts:1367-1382 | The loop's total is what the level pays for, since the period began, of the first page of calls filed under this office. |
| Spending.Standings | apps/server/src/server.ts:1384-1433 | The office, room and person that have a budget, each with its standing in its own period as far as a page of calls and of staff tells. |
| Spending.SpentAfterPut | apps/server/src/server.ts:1374-1380 | A record adds its own cost to the spending counted; past a full page it adds nothing, and before the end of one it takes the cost of the record it pushes off away. |
| Spending.PastThePageNothingCounts | apps/server/src/server.ts:1374-1380 | A record past a full page changes how no level of any office stands. |
| Spending.SpendingCanSeemToFall | apps/server/src/server.ts:1374-1380 | Some record of no negative cost lowers what a level is counted to have spent, if and only if a page of records or more is filed under the office and the last on the page costs the level something. |
| Spending.WhoPays | apps/server/src/server.ts:1398-1427 | The office pays for every call, a person for their own, and a room for those of the people on the first page of its staff and for nobody past it. |
| Spending.WhoIsCompared | apps/server/src/server.ts:1388-1396 | A call concerns the office, the person it names if the store knows them, and the room they work in. |
| Spending.TotalIsCosts | apps/server/src/server.ts:1374-1381 | What is counted is the cost of exactly the calls made at or after the start of the period that the level pays for. |
| Spending.StandSays | apps/server/src/server.ts:1394-1433 | A stand names its level, what its calls of the budget's current day or month cost on the office's page, and the limit; it is over exactly from the limit on and warned exactly from the warning up to it. |
| Spending.BudgetsAre | apps/server/src/server.ts:1394-1420 | A level's budget is the office's own, the room's or the person's. |
| Spending.OthersStand | apps/server/src/server.ts:1471-1475 | A record changes how a level of an office stands only if it is filed under that office and, before a page of them is, only if it names the level. |
| BudgetWarnings.AnnouncedExactlyAtTheCrossing | apps/server/src/server.ts:1477-1485 | In any run of posts to the routes of any offices, a level of an office is announced exactly by the posts to that office's route whose record names the level and that take it to a new standing other than within its budget. |
| BudgetWarnings.WarningsSay | apps/server/src/server.ts:1436-1455 | A warning goes out on the stream of the office posted to, with how its level stands once the record is stored. |
| BudgetWarnings.TakenByItsOwnRows | apps/server/src/server.ts:1471-1475 | Whatever changes a level's standing is a stored record filed under that office and, while the office's records fit a page, one that names the level. |
| BudgetWarnings.AnnouncedIffFiledWhereItIsPosted | apps/server/src/server.ts:1463-1485 | The post that takes a level to such a standing is announced if and only if its route is the office the record is filed under and the record names the level, which it does while the office's records fit a page. |
| BudgetWarnings.StandingOnlyRises | packages/core/src/budget/budget.ts:36-52 | In a run inside one period with costs that are never negative, every level of an office only rises while the office's records fit a page. |
| BudgetWarnings.TakenAtMostOnce | apps/server/src/server.ts:1479-1482 | In such a run no level of such an office is taken to the same standing twice. |
| BudgetWarnings.AnnouncedAtMostOnce | apps/server/src/server.ts:1479-1482 | In such a run no level of such an office is announced twice for the same standing. |
| BudgetWarnings.AFullPageAnnouncesTwice | apps/server/src/server.ts:1463-1485 | With fifty records at ten dollars, a free record with the lowest id takes an office from over its budget to within it, and the next record announces a second time that it is over. |
| BudgetWarnings.NothingElseGoesUnannounced | apps/server/src/server.ts:1463-1485 | A standing a level ends up in, of an office whose records fit a page, was reached by one of the posts, unless the run began there, and the run announced it if and only if that post's route is the office its record is filed under. |
| BudgetWarnings.NothingGoesUnannounced | apps/server/src/server.ts:1477-1485 | When every record filed under such an office is posted to its route, every such standing is announced. |
| BudgetWarnings.MisroutedSpendIsSilent | apps/server/src/server.ts:1463-1485 | Ten dollars filed under an office with a budget of ten, posted to another office's route, put the first over its budget, and no post that follows ever says so while its records fit a page. |
| BudgetWarnings.UsageRoutes.PostUsage | apps/server/src/server.ts:1463-1488 | A missing office and a refused record change nothing; otherwise the record is stored under the office it names, in its place by id, and exactly the crossings of the route's office, as far as a page tells, are published. |
| BudgetWarnings.UsageRoutes.WarnAbout | apps/server/src/server.ts:1477-1485 | Exactly the levels whose standing changed to something other than within budget. |
| Vault.RefsRoundTrip | packages/connectors/src/vault/vault.ts:266-333 | A reference is understood if and only if it is one the vault gives out, and as the id it was given out for. |
| Vault.RefsAre | packages/connectors/src/vault/vault.ts:267 | A reference is `vault://` and 32 digits, decimal or small letters up to f, which are the id. |
| Vault.StepIsAMapStep | packages/connectors/src/vault/vault.ts:340-427 | Each operation on a readable vault does to its contents what it does to a plain map, and keeps the vault readable. |
| Vault.VaultIsAMap | packages/connectors/src/vault/vault.ts:340-427 | Over every run a readable vault is a plain map from ids to values, and its check record goes with its key. |
| Vault.RotationKeepsLabels | packages/connectors/src/vault/vault.ts:409-427 | Rotation keeps every id, name and date, and every other key then gets `wrong_key`. |
| Vault.FreshSaltFreshKey | packages/connectors/src/vault/vault.ts:443-448 | Rotating to a passphrase, even the same one, changes the key, and reopening derives it again. |
| Vault.SavedKdfGivesTheKeyBack | packages/connectors/src/vault/vault.ts:313-317 | The source a vault was made with derives the same key from what was saved. |
| Vault.NewVaultReopens | packages/connectors/src/vault/vault.ts:293-323 | A new vault opens again under the source it was made with. |
| Vault.ReopeningGivesTheSameVault | packages/connectors/src/vault/vault.ts:293-427 | After any run of operations the saved file opens under the source last rotated to as the very vault the run ended with, holding the map the run makes. |
| Vault.Vault.Open | packages/connectors/src/vault/vault.ts:293-323 | Reopening gives the file as saved under the key its source derives, and is refused exactly for a source without a key or a key that does not open it; creating gives an empty vault whose check its own key opens. |
| Vault.Vault.Persist | packages/connectors/src/vault/vault.ts:335-338 | Memory and the saved file agree, whether or not saving worked. |
| Vault.Vault.Put | packages/connectors/src/vault/vault.ts:340-351 | The record has the name, both dates and the value sealed under its id, the value is readable under the returned reference and nothing else in the file changes; a failed save changes nothing. |
| Vault.Vault.Update | packages/connectors/src/vault/vault.ts:353-364 | The value and the date of the update are replaced, and name, date of creation and everything else stay; a bad or unknown reference or a failed save changes nothing. |
| Vault.Vault.Get | packages/connectors/src/vault/vault.ts:366-381 | The value sealed with the vault's key under this id, or which of the four ways it cannot be had: bad reference, unknown, unreadable under the right key, wrong key. |
| Vault.Vault.Delete | packages/connectors/src/vault/vault.ts:391-397 | Exactly the secret is gone, or nothing has changed. |
| Vault.Vault.Plaintexts | packages/connectors/src/vault/vault.ts:411-413 | All values, exactly when every one of them can be read. |
| Vault.Vault.Resealed | packages/connectors/src/vault/vault.ts:415-418 | Every record under the new key, otherwise unchanged. |
| Vault.Vault.Rotate | packages/connectors/src/vault/vault.ts:409-427 | It goes through exactly when every secret can be read, a key derived and the file saved; then the values are unchanged under the new key, otherwise file and key are. |
| UsageReport.TallyHoldsItsGroups | apps/web/src/office/usage-report.ts:94-108 | A group has a row if and only if it has calls, and the row holds what exactly its own calls come to, under the person's name and model, the department's name or the model's, or as someone who has left. |
| UsageReport.GroupsAreTheirCalls | apps/web/src/office/usage-report.ts:158-166 | A group's sum is that of the calls that name the person, whose person works in the department, or that used the model. |
| UsageReport.FilterLeaves | apps/web/src/office/usage-report.ts:115-123 | The filter leaves exactly the calls at or after its moment by the people of its department, as often as each is there. |
| UsageReport.LinesSay | apps/web/src/office/usage-report.ts:141-148 | What stands on the line of each call, column by column. |
| UsageReport.LinesAddUp | apps/web/src/office/usage-report.ts:137-148 | The lines add up to the report's own totals: money, calls and unpriced calls. |
| UsageReport.AverageIsOfWorkDone | apps/web/src/office/usage-report.ts:150-157 | Finished tasks are the tasks of the calls that are done, and the average is what those calls cost over their number, if there is any. |
| UsageReport.TallyConserves | apps/web/src/office/usage-report.ts:94-108 | The rows of a tally and the calls it could not attribute come to everything. |
| UsageReport.RankingIsDescending | apps/web/src/office/usage-report.ts:89-92 | A ranking is a descending permutation of its groups, ties in the order they were first met. |
| UsageReport.LinesAreNewestFirst | apps/web/src/office/usage-report.ts:58-59 | Every call the filter left has its line, newest first and those of one moment in the order they came in. |
| UsageReport.Meter | apps/web/src/office/usage-report.ts:134-167 | One call is added to every running total it belongs to. |
| UsageReport.BuildReport | apps/web/src/office/usage-report.ts:110-180 | One pass over the rows gives the report that is specified group by group. |
| UsageReport.ReportConserves | apps/web/src/office/usage-report.ts:169-179 | Money, calls and unpriced calls: the models' rows total the report, and so do the employees' and the departments' rows with the unattributed calls. |
| UsageReport.NarrowedReportIsTheRow | apps/web/src/office/usage-report.ts:115-123 | The report filtered to a department totals exactly that department's row in the unfiltered one, and nothing when it has none. |
| Csv.ReadField | apps/web/src/office/usage-report.ts:182-185 | A reader by section 2 of RFC 4180 reads a written field back as the text it was written from. |
| Csv.RowReadsBack | apps/web/src/office/usage-report.ts:195-204 | A written line of a report is one record of six fields with its time, texts, duration and cost. |
| Csv.CsvReadsBack | apps/web/src/office/usage-report.ts:187-206 | The spreadsheet of a report reads back as the header and one record per line, with its time, person, model, task, duration and cost in the header's columns; a cost is empty if and only if the call was unpriced. |
| Csv.CostReadsBack | apps/web/src/office/usage-report.ts:202 | A cost reads back from its digits, six of them after the point, to within half a millionth of a dollar, halves away from zero. |
| Csv.WholeReadsBack | apps/web/src/office/usage-report.ts:201 | A duration reads back from its digits. |
| Csv.EveryKeptCallIsInTheSheet | apps/web/src/office/usage-report.ts:110-206 | What is read back from the spreadsheet of a report is one record for every call the filter left, newest first. |
| ToolNames.SplitUndoesWireName | packages/core/src/connector/connector.ts:327-340 | For a valid connector name and a non-empty tool, splitting a wire name gives back the pair. |
| ToolNames.SplitsBackIff | packages/core/src/connector/connector.ts:327-340 | Of any two texts whatever, splitting gives back the pair if and only if neither is empty and no separator begins before the one between them. |
| ToolNames.WireNamesAreInjective | packages/core/src/connector/connector.ts:327-329 | Two different tools never share a wire name. |
| ToolNames.JoinUndoesSplit | packages/connectors/src/mcp/mcp-connector.ts:281 | Joining what a string was split into gives the string back. |
| ToolNames.ConnectorNamesAre | packages/core/src/connector/connector.ts:91 | A valid connector name is 1 to 64 small letters, digits and hyphens with no hyphen at either end. |
| ToolNames.BrokerReadsTheSameTool | packages/connectors/src/mcp/mcp-connector.ts:281 | A broker's own way of reading the tool agrees with the split, separators in the tool included. |
| ToolNames.NoErrorIffGood | packages/core/src/connector/connector.ts:168-185 | A connector's tool names pass if and only if each is non-empty, not the wildcard, without a separator and not a repeat. |
| ToolNames.ValidateToolNames | packages/core/src/connector/connector.ts:168-185 | The loop's errors are those, one per bad name at most, in order. |
| ToolNames.OfficeBroker.constructor | packages/connectors/src/office-broker.ts:72-77 | Each name leads to the last connector of that name that is switched on and a web search or an MCP server, and a name without one leads nowhere. |
| ToolNames.OfficeBroker.Call | packages/connectors/src/office-broker.ts:85-92 | A wire name is routed to the connector whose name it was made with, which reads the same tool, and refused exactly when it does not split or nobody has the name. |
| ToolNames.NamesLeadHome | packages/connectors/src/office-broker.ts:72-77 | With names of their own, each connector is reached by its name if and only if it is enabled and can be performed. |
| Shared.TrimIsTheMiddle | packages/core/src/department/bench.ts:217 | Trimming takes white space off both ends and leaves what is between as it is. |
| Shared.TrimOfSpaceIsNothing | packages/core/src/department/bench.ts:174 | Nothing is left if and only if there was nothing but white space. |
| Shared.SpacesAre | packages/core/src/department/bench.ts:217 | White space is the white space and line terminators of ECMAScript, by code. |
| Shared.DecimalReadsBack | apps/web/src/office/usage-report.ts:201 | A number is what its digits stand for. |
| Sorting.SortIsStable | apps/web/src/office/usage-report.ts:89-92 | Elements that the comparator ties keep the order they came in. |

## Left out

- The workflow engine, scheduler, queue, storage adapters, worker loop, proposals, channels and documents: not part of this model.
- The user interface, HTTP and WebSocket plumbing, authentication and the wording of notifications.
- Interleaving of awaits inside one handler: each handler is one atomic step, and a listener that throws is one that hears the event.
- A restart of the server: the log is in memory, so the protocol is modelled within one life of the server.
- Server routes other than those of departments: the conflict check is the same code for every entity, and other entities' events appear as `PublishOther`.
- The checks a department PATCH body goes through (grants, benches, fields): one function `edit` stands for them and for the update; likewise `apply` for setting a run state. A creation that is refused is not modelled.
- ConflictCheck.DepartmentServer.Patch: claimed offsets are whole numbers; a fractional one acts as the next lower whole one, and one that is not a finite number as none.
- StreamProtocol.NothingSeenWasMissed: what the canvas does with an event or a gap notice (fetching, reloading) is not modelled, only that it records the offset when it has finished.
- OfficeConnections.OfficeGraph.Create: the reply for an office that does not exist is not modelled; a graph is that of an office that does.
- OfficeConnections.OfficeGraph.Update: whether the claimed offset is stale is given, being the question `ConflictCheck.DepartmentServer.IsStale` answers.
- Bench: a task's id is its rank in the order `localeCompare` gives ids, and instants are whole numbers. A bench whose name is no string or whose members are no list is not modelled, nor is `validateBenchMembers`.
- Bench.AcceptedBenchIsFair: for a roster that does not change during the run; the roster is the one handed over, at the server a page of the room's staff.
- Pages.PageAfterInsert: a store that is told to hand over fewer than 50 at most, and the cursor to the pages after the first, are not modelled.
- StdioTransport: `JSON.parse` is a parameter; requests are known by the place they were made in; writing to and killing the process are not modelled. A request between `close` and the process's exit event starts a second process in the source, and does so here.
- StdioTransport.Transport.Close: closing the input, the grace period and the kill after it are not modelled.
- McpSession.Session.Ask: a response arrives as a result or as the server's refusal; how a refusal is worded is not modelled.
- McpSession.Session.CallTool: the text and the verdict read out of the response are not modelled.
- McpSession.Session.ListTools: the server's answers and what other calls of the session send before each page are given in advance; tool annotations and `tools/list_changed` are not modelled.
- Budget: a zone is a function giving its offset at each instant, in whole seconds and less than a day; the calendar's months are a function from a date to the one that opens its period. Unknown zones, `spentSince` and `parseBudget` are left out.
- StdioTransport.Transport.OnStderr: characters are Unicode scalar values, where the source counts the last 2000 UTF-16 code units; `Vault` likewise has no lone surrogates, which an encoding to UTF-8 would not keep, and ids are compared by scalar value.
- Spending: a record's id is its place in the order of ids, and there is always one before all others; what the server reads of departments and people one by one it reads whole.
- BudgetWarnings: dollars are exact; budgets, roster and the starts of the current periods are fixed in a run; what makes a body a usage record is given.
- Vault: the cipher is ideal, whether the store can save is given, different passphrases or salts derive different keys, and random ids and salts are parameters; `list`, `has` and `redact` are left out, the last because placeholders may themselves contain secret text.
- UsageReport: dollars are exact, and what can be read out of a usage event is given.
- Csv.CsvReadsBack: writing an instant in the form of ISO 8601 is a parameter that never yields a quote, comma or line feed; durations are whole milliseconds.
- ToolNames.OfficeBroker.Call: which connectors are offered to a model, grants, and what a broker does with the call are left out.
- Semver comparison, snapping, configuration readers and similar small pure functions: they would only add easy members.
