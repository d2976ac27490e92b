# Verified model of the code graph's layout, paging and allocation algorithms

This project models, in Dafny, the parts of the code graph system whose guarantees span many steps or many
functions, and proves those guarantees for every input, every run or every reachable state:

- **Exact-scope layout.** Nodes of a directory scope are counted into at most twelve domains and forty-eight
  selected files, everything else goes to one aggregate per domain; clusters are packed inside domains and domains
  around each other with a spatial hash; the result is rounded and nodes are positioned inside their clusters.
  (`GraphScope`, `DomainKeys`, `ExactScopeGroups`, `ExactScopeCensus`, `GroupingUnique`, `SharedFileKeys`,
  `CirclePacking`, `ExactScopeLayout`, `ExactScope`)
- **Revision-bound paging.** The shared hook for exact paginated reads as a state machine over effect reruns,
  renders, `loadMore`, answers, failures, settlements, retries and unmounts, with the two clients' validation and
  merge. (`RevisionPages`, `HookOutcomes`, `PageMerge`, `PageRepeats`)
- **WebSocket generations.** The notification hook as a state machine over project switches, credential answers,
  socket events, timers and manual reconnects. (`SocketGenerations`, `SocketRecovery`, `ConnectedFlag`)
- **Mann-Whitney U** with ties, and Cliff's delta. (`MannWhitney`)
- **The stellar layouts.** The overview constellation with its angular sectors, the directed focus layout with its
  bounded breadth-first search, the depth of an edge, the lane summaries, and the viewport that frames the focus.
  (`StellarConstellation`, `StellarFamilies`, `StellarOverview`, `StellarDepths`, `StellarKeys`, `StellarFlow`,
  `StellarLayout`, `StellarProperties`, `StellarReach`, `StellarLanes`, `StellarRails`, `FocusComposer`)
- **The bump arena.** (`Arena`, `ArenaGrowth`)
- **The sidebar tree.** Building the directory tree in place and compressing chains of single directories.
  (`SidebarBuild`, `SidebarTree`, `SidebarNames`)

`Sorting`, `Counting`, `Numbers`, `Options`, `StellarTargets` and `Pages` are shared vocabulary.

## How it is modelled

Pure code is a function, code that loops or updates in place is a method or a class proved against a specification
function, and what the system promises is proved about that function or state. The hooks appear twice: as a value
machine `State`/`Step`/`Run` the invariants are proved about, and as a class (`PagesHook`, `SocketHook`) whose methods
update the refs and states as the source does and are proved to take exactly that step.

JavaScript numbers are reals. `sqrt`, `hypot`, `cos`, `sin`, `atan2` and `depth ** 0.72` are values of a record, and
lemmas that need it assume its algebraic laws (`Math.Lawful`, `Env.Lawful`): squares of roots, `c*c + s*s = 1`,
`hypot` squared is the sum of the squares, `depth ** 0.72 >= 1` from depth one. Where a lemma also needs that
`depth ** 0.72` grows (`DistanceGrows`) or that importance pulls inwards (`PullsInward`), its `requires` says so.
`localeCompare` is a parameter; orders are claimed where it is some total preorder (`Collates`), everything else
without. Hashes enter as parameters in `[0, 1)`. Characters stand for UTF-16 code units. `size_t` is a natural number.

An effect rerun (cleanup, body and the render that follows) is one step, other renders are steps of their own, and
`loadMore` reads the last render, which may lag behind. The paging results about page contents assume what the
repository promises of its server (`v2/README.md:119-132`): for every revision there is one list of pages, cursors
lead along it, and a page that answers a cursor comes from the list of the revision it carries.

Five places where the code does not do what one might expect are stated as lemmas with concrete inputs or runs, next to
the exact condition under which the code does meet the property:

- A file key that arises in two domains is listed under the domain of its last node only, and the other domain may
  then own no cluster at all (`SharedKeyEmptiesDomain`, `FirstOfTwoLosesOut`). In a scope of at most twelve domains and
  forty-eight domain and file pairs a domain owns a cluster exactly when one of its nodes is the last of all nodes with
  its file key (`DomainKeepsAFile`, `EveryDomainKeepsAFile`); in a scope of any size every domain owns one when nodes
  with one file key lie in one directory and no file is named like an aggregate (`AgreeingPathsOwn`). For a domain that
  owns none the source continues with a radius of minus infinity; the model has no plan. Where two domains share a key
  the grouping also depends on the order in which the nodes arrive, and only there (`OrderDecidesNothing`,
  `OrderDecidesSharedKeys`).
- Membership in a directory normalises the key once more, so a scope that looks like a drive path loses its own nodes
  (`DriveLikeScopeEscapes`; condition in `OwnDomainBelongs`).
- `loadMore` called twice before the next render appends the same page twice (`PageAppendedTwice`). What it asks for is
  loaded already exactly when the last page rendered is not the last page loaded (`RepeatsLoadedPage`), and the loaded
  pages are the first of one list, each once, exactly when every appended answer was asked from an up-to-date render
  (`PrefixExactlyWhenFresh`). The merge hides the repeat (`MergedIsPrefix`).
- `connected` can show while no socket is open, for as long as the credential is refused (`ReconnectMisleads`,
  `StillMisleads`). It tells the truth throughout a run exactly when no event took an open socket away before a close
  event of it was heeded: no manual reconnect whose close event came later, no error, no missing pong, no unmount
  (`TruthfulExactlyWhen`). An open socket always shows (`OpenShows`).
- A chain of directories in the sidebar is shown as one entry that stands for the last of them. Its name spells the path
  there exactly when the chain has no more than two links (`NameOfChain`); a longer one is named after the first two
  only, as for the tree of one file in `src/a/b/c` (`DeepNameStopsShort`).

A comment in `graph-ui/src/lib/graph-stellar-layout.ts:412` speaks of at most eight rails; three roles at four depths
allow twelve. Twelve is the bound proved (`AtMostTwelveRails`), and a graph of thirteen nodes reaches it
(`TwelveRails`).

## Model

| member | source | states |
|---|---|---|
| `GraphScope.NormalizedIsNormal` | v2/src/graph-scope.ts:4-9 | a normalised path has no backslash and no slash at either end |
| `GraphScope.NormalStays` | v2/src/graph-scope.ts:4-9 | normalising again changes nothing unless the path begins like a drive |
| `GraphScope.NormalizedKeepsSegments` | v2/src/graph-scope.ts:4-9 | a normalised path has the segments of the path, backslashes read as slashes and the drive dropped |
| `GraphScope.SegmentsOfJoin` | v2/src/graph-scope.ts:47-48 | splitting a joined path and dropping empty parts gives the segments back |
| `GraphScope.UnderTransitive` | v2/src/graph-scope.ts:49-51 | lying in a directory is transitive along directories |
| `DomainKeys.ScopeIsPrefix` | v2/src/exact-scope-layout.ts:71-90 | the scope of a node is some of the leading segments of its directory |
| `DomainKeys.DomainKeyInScope` | v2/src/exact-scope-layout.ts:79-90 | the domain is the scope exactly when the node sits directly in it, else the scope and one segment; the directory equals or lies under the key and the key under the scope |
| `DomainKeys.DomainKeyOfRoot` | v2/src/exact-scope-layout.ts:79-90 | of the root scope the domain is the first segment of the directory, or the root key |
| `DomainKeys.ChildImpliesScope` | v2/src/graph-scope.ts:40-52 | membership in a child's subtree implies membership in the scope |
| `DomainKeys.OwnDomainBelongs` | v2/src/graph-scope.ts:40-52 | a node is a member of its own domain exactly when the key's second normal form still lies above the key, so for every key not like a drive path |
| `DomainKeys.DriveLikeScopeEscapes` | v2/src/graph-scope.ts:4-9 | a concrete scope whose node is not found under its own domain key |
| `DomainKeys.FileKeysApart` | v2/src/exact-scope-layout.ts:71-77 | nodes share a file key exactly when they share the path, or have none and share the label |
| `ExactScopeGroups.CountKeys` | v2/src/exact-scope-layout.ts:132-136 | the counting loop gives every key its number of occurrences |
| `ExactScopeGroups.SortedCounts` | v2/src/exact-scope-layout.ts:92-96 | every key with its count, once, the larger count first and the smaller key among equals |
| `ExactScopeGroups.SelectDomains` | v2/src/exact-scope-layout.ts:106-115 | all domains if at most twelve, else eleven: the scope itself and the largest others, none left out ahead of one taken |
| `ExactScopeGroups.CountGroups` | v2/src/exact-scope-layout.ts:139-148 | counts per key, each with the domain of the last node that had it |
| `ExactScopeGroups.SelectFiles` | v2/src/exact-scope-layout.ts:150-178 | exactly min(48, pairs) files, the two largest of every domain among them, and no unselected file before a selected non-reserved one |
| `ExactScopeGroups.FirstTwoReserved` | v2/src/exact-scope-layout.ts:163-169 | the first two of a sorted bucket are just the files that at most one file of their domain outranks |
| `ExactScopeCensus.GroupNodes` | v2/src/exact-scope-layout.ts:127-215 | domains, selected files and clusters as one grouping of the nodes, in key order, with exact counts |
| `ExactScopeCensus.AtMostTwelveDomains` | v2/src/exact-scope-layout.ts:106-119 | at most twelve domains for any input |
| `ExactScopeCensus.SelectedFileCount` | v2/src/exact-scope-layout.ts:163-178 | exactly min(48, number of domain and file pairs) selected files |
| `ExactScopeCensus.AtMostSixtyClusters` | v2/src/exact-scope-layout.ts:180-188 | at most sixty clusters for scopes and paths without the NUL character that separates domain and file in a composite key |
| `ExactScopeCensus.CountsConserved` | v2/src/exact-scope-layout.ts:139-215 | the domain counts and the cluster counts each sum to the number of nodes |
| `ExactScopeCensus.ClustersCountOwn` | v2/src/exact-scope-layout.ts:180-188 | every cluster counts only its own domain's nodes exactly when no cluster key arises in two domains |
| `ExactScopeCensus.DomainIsSumOfClusters` | v2/src/exact-scope-layout.ts:180-215 | then every domain's count is the positive sum of its clusters' counts |
| `ExactScopeCensus.DomainOwnsCluster` | v2/src/exact-scope-layout.ts:186-215 | a domain owns a cluster exactly when one of its nodes is the last under its cluster key |
| `SharedFileKeys.AgreeingPathsShareNothing` | v2/src/exact-scope-layout.ts:180-188 | when nodes with one file key lie in one directory and none is named like an aggregate, no cluster key arises in two domains |
| `SharedFileKeys.AgreeingPathsOwn` | v2/src/exact-scope-layout.ts:180-215 | then every domain owns a cluster, in scopes of any size |
| `SharedFileKeys.DomainKeepsAFile` | v2/src/exact-scope-layout.ts:106-215 | with at most twelve domains and forty-eight pairs, a domain owns a cluster exactly when one of its nodes is the last of all nodes with its file key |
| `SharedFileKeys.EveryDomainKeepsAFile` | v2/src/exact-scope-layout.ts:106-215 | so every domain owns one exactly when that holds of the domain of every node |
| `SharedFileKeys.FirstOfTwoLosesOut` | v2/src/exact-scope-layout.ts:180-215 | two nodes with one file key in two domains leave the first domain without a cluster |
| `SharedFileKeys.SharedKeyEmptiesDomain` | v2/src/exact-scope-layout.ts:180-215 | a folder and a file at one path are such nodes |
| `ExactScopeCensus.NodeFindsItsCluster` | v2/src/exact-scope-layout.ts:278-287 | the lookup of an input node never fails and yields the key that counted it |
| `ExactScopeCensus.RadiusHoldsRings` | v2/src/exact-scope-layout.ts:121-125 | the radius is the least whole number that leaves 22 around the outermost ring of the nodes shown, at most 64 or 96, and at least 44 |
| `ExactScopeCensus.RadiusGrows` | v2/src/exact-scope-layout.ts:121-125 | a cluster with more nodes is no smaller, and past the cap no larger |
| `GroupingUnique.GroupingDetermined` | v2/src/exact-scope-layout.ts:106-215 | nodes and scope determine selections, domains and clusters: the sort orders leave no choice |
| `GroupingUnique.OrderDecidesNothing` | v2/src/exact-scope-layout.ts:127-215 | nodes in another order are grouped the same when no cluster key arises in two domains and no domain key contains the NUL separator |
| `GroupingUnique.OrderDecidesSharedKeys` | v2/src/exact-scope-layout.ts:139-148 | for a cluster key that two domains share, bringing a node of the one or the other domain to the end gives different clusters |
| `CirclePacking.PackApart` | v2/src/graph-layout-primitives.ts:76-108 | by spiral or by fallback, any two packed circles are at least the gap apart |
| `CirclePacking.PackFollowsSpiral` | v2/src/graph-layout-primitives.ts:76-108 | in packing order, the first circle is at the origin and every other at the first clear candidate behind the one before, or beyond all earlier circles when 50,000 candidates are blocked |
| `CirclePacking.OnlyPackingFollows` | v2/src/graph-layout-primitives.ts:28-108 | with distinct keys no other arrangement does |
| `CirclePacking.CandidateReach` | v2/src/graph-layout-primitives.ts:88-92 | candidate `k` is as far out as the step times the root of `k` |
| `CirclePacking.FallbackClear` | v2/src/graph-layout-primitives.ts:101-104 | the outer-radius fallback is clear of every placed circle |
| `CirclePacking.PackDeterministic` | v2/src/graph-layout-primitives.ts:28-29 | with distinct keys the packing does not depend on the input order |
| `CirclePacking.CloseShareCell` | v2/src/graph-layout-primitives.ts:39-61 | circles closer than the gap have a cell in common |
| `CirclePacking.Packer.IndexItem` | v2/src/graph-layout-primitives.ts:55-61 | adds the item to just the cells its circle meets; every other entry of every cell is as before |
| `CirclePacking.Packer.Nearby` | v2/src/graph-layout-primitives.ts:63-66 | collects only placed circles, and all that share a cell with the candidate |
| `CirclePacking.Packer.OverlapsPlaced` | v2/src/graph-layout-primitives.ts:62-74 | the cell test answers exactly as a scan of all placed circles |
| `CirclePacking.Packer.FindSpot` | v2/src/graph-layout-primitives.ts:78-104 | the spot chosen with the index is the one the plain scan chooses |
| `CirclePacking.Packer.PlaceOne` | v2/src/graph-layout-primitives.ts:77-108 | one round takes the packing state where the plain scan would |
| `CirclePacking.PackGraphCircles` | v2/src/graph-layout-primitives.ts:23-109 | moves the circles in place: radii kept, all at least the gap apart, each in order at the first clear candidate of the spiral or, when 50,000 are blocked, beyond all earlier ones |
| `ExactScopeLayout.ShiftedBounds` | v2/src/exact-scope-layout.ts:219-234 | moving all circles moves their bounding box |
| `ExactScopeLayout.Centre` | v2/src/exact-scope-layout.ts:219-234 | moves the clusters by one vector so that their box is centred |
| `ExactScopeLayout.FarthestReach` | v2/src/exact-scope-layout.ts:235-237 | the largest reach of the clusters from the origin, attained by one |
| `ExactScopeLayout.PackDomain` | v2/src/exact-scope-layout.ts:217-239 | clusters packed along the spiral 28 apart and moved to centre their box, the domain radius the least whole number leaving 48 around each |
| `ExactScopeLayout.MovedWellLaid` | v2/src/exact-scope-layout.ts:240-246 | moving packed clusters to packed domains keeps padding and gaps: 28 within, 76 + 2*48 between domains |
| `ExactScopeLayout.LayoutScope` | v2/src/exact-scope-layout.ts:217-246 | both levels together, before rounding: the domains packed along the spiral with the radii that enclose their clusters, every cluster where its domain and its packing put it |
| `ExactScopeLayout.RoundedDisjoint` | v2/src/exact-scope-layout.ts:248-257 | after rounding to hundredths cluster circles are still at least 27.98 apart |
| `ExactScopeLayout.NodeInsideCluster` | v2/src/exact-scope-layout.ts:287-298 | a rounded node position lies inside its cluster's circle with 17.98 to spare |
| `ExactScopeLayout.NodesFillCluster` | v2/src/exact-scope-layout.ts:287-298 | a node stands at the angle that is its hash's share of the turn and at the distance whose share of the area is the other hash, rounded to hundredths |
| `ExactScope.BuildExactScopeLayout` | v2/src/exact-scope-layout.ts:127-272 | grouping, geometry and rounding: a finished plan exactly when every domain owns a cluster |
| `ExactScope.PositionExactScopeLayoutNode` | v2/src/exact-scope-layout.ts:274-299 | every input node is positioned, in the cluster of its key and inside the circle |
| `RevisionPages.StepKeeps` | graph-ui/src/hooks/useRevisionBoundPages.ts:49-156 | every event keeps the invariant: one live request, flags true only for it, pages of one revision and identity, the render a prefix of what is loaded or cleared pages |
| `RevisionPages.RunKeeps` | graph-ui/src/hooks/useRevisionBoundPages.ts:41-156 | so the invariant holds after any interleaving of events |
| `RevisionPages.LateAnswerIgnored` | graph-ui/src/hooks/useRevisionBoundPages.ts:63-89 | once a request is superseded, then after any further events its answer, failure and settling change only its own record |
| `RevisionPages.Supersedes` | graph-ui/src/hooks/useRevisionBoundPages.ts:49-109 | a rerun, an unmount and a newer request each supersede every earlier request |
| `RevisionPages.StaysSuperseded` | graph-ui/src/hooks/useRevisionBoundPages.ts:49-147 | and superseded it stays through every further run |
| `RevisionPages.RerunKeeps` | graph-ui/src/hooks/useRevisionBoundPages.ts:49-61 | cleanup, body and render keep the invariant for any new identity |
| `RevisionPages.LoadMoreKeeps` | graph-ui/src/hooks/useRevisionBoundPages.ts:101-110 | `loadMore` from the last render keeps the invariant |
| `RevisionPages.MorePageKeeps` | graph-ui/src/hooks/useRevisionBoundPages.ts:111-126 | a further page is appended only within one revision; a mismatch clears and restarts |
| `RevisionPages.RejectKeeps` | graph-ui/src/hooks/useRevisionBoundPages.ts:127-141 | failures and 409 restarts of a live request keep the invariant |
| `RevisionPages.SettleKeeps` | graph-ui/src/hooks/useRevisionBoundPages.ts:142-146 | the final handler of a request keeps the invariant |
| `RevisionPages.RetryKeeps` | graph-ui/src/hooks/useRevisionBoundPages.ts:149-156 | `retry` keeps the invariant in both of its branches |
| `RevisionPages.PagesHook.constructor` | graph-ui/src/hooks/useRevisionBoundPages.ts:41-57 | the mounted hook is the machine's initial state |
| `RevisionPages.PagesHook.RunEffect` | graph-ui/src/hooks/useRevisionBoundPages.ts:49-96 | the effect in place takes the machine's rerun step |
| `RevisionPages.PagesHook.CommitRender` | graph-ui/src/hooks/useRevisionBoundPages.ts:98-99 | a render in place takes the machine's commit step |
| `RevisionPages.PagesHook.OnLoadMore` | graph-ui/src/hooks/useRevisionBoundPages.ts:101-110 | in place, the `loadMore` step |
| `RevisionPages.PagesHook.OnRetry` | graph-ui/src/hooks/useRevisionBoundPages.ts:149-156 | in place, the retry step |
| `RevisionPages.PagesHook.OnPage` | graph-ui/src/hooks/useRevisionBoundPages.ts:63-71 | in place, the arrival of a page, first or further |
| `RevisionPages.PagesHook.OnFailure` | graph-ui/src/hooks/useRevisionBoundPages.ts:72-84 | in place, the failure of a request |
| `RevisionPages.PagesHook.OnSettled` | graph-ui/src/hooks/useRevisionBoundPages.ts:85-89 | in place, the final handler |
| `RevisionPages.PagesHook.OnUnmount` | graph-ui/src/hooks/useRevisionBoundPages.ts:91-95 | in place, the cleanup on unmounting |
| `HookOutcomes.RestartStaysOwed` | graph-ui/src/hooks/useRevisionBoundPages.ts:111-134 | a live request that learns of another revision, by the 409 or by a page, drops what is loaded, and nothing is loaded and a restart is owed through every run until the effect runs again |
| `HookOutcomes.RerunAsks` | graph-ui/src/hooks/useRevisionBoundPages.ts:49-96 | whenever the effect runs, an enabled hook asks for the first page with nothing loaded, failed or owed, and a disabled one asks for nothing |
| `HookOutcomes.FailureIsShown` | graph-ui/src/hooks/useRevisionBoundPages.ts:72-89 | any other failure of a live request changes only the failure: its message, phase and status are what the next render shows, beside what was loaded |
| `HookOutcomes.FirstPageIsShown` | graph-ui/src/hooks/useRevisionBoundPages.ts:63-71 | a first page is shown if it passes validation, else the problem is |
| `HookOutcomes.FurtherPageIsShown` | graph-ui/src/hooks/useRevisionBoundPages.ts:111-126 | a further page of the revision is shown behind the others if it passes validation, else the problem is |
| `HookOutcomes.LoadMoreAsks` | graph-ui/src/hooks/useRevisionBoundPages.ts:101-110 | `loadMore` asks for the page behind the last one shown exactly when one is offered and nothing is loading |
| `HookOutcomes.RetryAsks` | graph-ui/src/hooks/useRevisionBoundPages.ts:149-156 | `retry` of a failed `loadMore` asks again, any other clears the failure and owes a restart |
| `HookOutcomes.SomethingCanBeShown` | graph-ui/src/hooks/useRevisionBoundPages.ts:41-156 | after any run a mounted, enabled hook is at most four events without a click away from showing pages or a failure |
| `PageMerge.ScopePagesAgree` | graph-ui/src/hooks/useExactScope.ts:19-27 | all loaded pages of a scope are about it, of one revision and with the same totals |
| `PageMerge.NeighborhoodPagesAgree` | graph-ui/src/hooks/useExactNeighborhood.ts:18-22 | all loaded pages of a neighborhood have the selected anchor |
| `PageMerge.MergePages` | graph-ui/src/hooks/useExactScope.ts:36-58 | the strictly ascending listing of the last record of every id, with the sizes and the last cursor; nothing without pages |
| `PageMerge.StepTracks` | graph-ui/src/hooks/useRevisionBoundPages.ts:101-125 | true answers keep what is loaded and rendered on a prefix of one page list |
| `PageMerge.RunTracks` | graph-ui/src/hooks/useRevisionBoundPages.ts:49-147 | and so does any run of events with true answers |
| `PageMerge.MergedIsPrefix` | graph-ui/src/hooks/useExactNeighborhood.ts:31-51 | merged nodes and edges are the id-ascending duplicate-free union of a prefix of one revision's pages, and of all of them once no cursor is left |
| `PageMerge.MergeAfterRun` | graph-ui/src/hooks/useExactScope.ts:28-58 | the same for what the merge returns after any run |
| `PageRepeats.PageAppendedTwice` | graph-ui/src/hooks/useRevisionBoundPages.ts:101-125 | a concrete run that appends one page twice |
| `PageRepeats.RepeatsLoadedPage` | graph-ui/src/hooks/useRevisionBoundPages.ts:101-125 | the page that answers `loadMore` is loaded already exactly when the last page rendered is not the last loaded |
| `PageRepeats.StaleRenderRepeats` | graph-ui/src/hooks/useRevisionBoundPages.ts:98-125 | without repeats so far, exactly when the render does not show all that is loaded |
| `PageRepeats.RunTells` | graph-ui/src/hooks/useRevisionBoundPages.ts:49-156 | over any run of true answers the loaded pages have no repeat exactly when every appended answer was asked from an up-to-date render |
| `PageRepeats.PrefixExactlyWhenFresh` | graph-ui/src/hooks/useRevisionBoundPages.ts:49-156 | and exactly then they are a prefix of one revision's list |
| `SocketGenerations.StepKeeps` | graph-ui/src/hooks/useWebSocket.ts:67-250 | every event keeps the invariant on sockets, timers, credential requests and deliveries |
| `SocketGenerations.RunKeeps` | graph-ui/src/hooks/useWebSocket.ts:67-250 | so over every run deliveries come from the current project's and generation's socket, every other socket is closed or closing, and at most one timer is pending, for the current project |
| `SocketGenerations.AtMostOneUp` | graph-ui/src/hooks/useWebSocket.ts:103-160 | two sockets that are up are the same one, for the current project, and then no timer is pending |
| `SocketGenerations.OldSocketsSilent` | graph-ui/src/hooks/useWebSocket.ts:105-160 | through any later run what was delivered stays, and nothing that is added comes from a socket of an earlier generation |
| `SocketGenerations.ConnectKeeps` | graph-ui/src/hooks/useWebSocket.ts:67-86 | `connect` with nothing up leaves one credential request of a new generation |
| `SocketGenerations.ReconnectKeeps` | graph-ui/src/hooks/useWebSocket.ts:206-223 | a manual reconnect keeps the invariant, also when the close handler runs at once |
| `SocketGenerations.SwitchKeeps` | graph-ui/src/hooks/useWebSocket.ts:225-250 | a project switch keeps the invariant |
| `SocketGenerations.CleanupKeeps` | graph-ui/src/hooks/useWebSocket.ts:232-248 | the cleanup leaves every socket closed or closing, no timer, and everything of an earlier generation |
| `SocketGenerations.SocketHook.constructor` | graph-ui/src/hooks/useWebSocket.ts:225-231 | the mounted hook is the machine's initial state |
| `SocketGenerations.SocketHook.OnSwitch` | graph-ui/src/hooks/useWebSocket.ts:225-250 | in place, the switch step |
| `SocketGenerations.SocketHook.OnUnmount` | graph-ui/src/hooks/useWebSocket.ts:232-248 | in place, the unmount step |
| `SocketGenerations.SocketHook.OnBootstrap` | graph-ui/src/hooks/useWebSocket.ts:86-103 | in place, the answer of a credential request |
| `SocketGenerations.SocketHook.OnBootstrapFailure` | graph-ui/src/hooks/useWebSocket.ts:82-85 | in place, its failure |
| `SocketGenerations.SocketHook.OnOpen` | graph-ui/src/hooks/useWebSocket.ts:105-114 | in place, the opening of a socket |
| `SocketGenerations.SocketHook.OnNotification` | graph-ui/src/hooks/useWebSocket.ts:116-143 | in place, a notification |
| `SocketGenerations.SocketHook.OnClosed` | graph-ui/src/hooks/useWebSocket.ts:145-154 | in place, the closing of a socket |
| `SocketGenerations.SocketHook.OnError` | graph-ui/src/hooks/useWebSocket.ts:156-161 | in place, an error |
| `SocketGenerations.SocketHook.OnPongTimeout` | graph-ui/src/hooks/useWebSocket.ts:175-180 | in place, the close after a missing pong |
| `SocketGenerations.SocketHook.OnTimer` | graph-ui/src/hooks/useWebSocket.ts:200-203 | in place, the reconnect timer |
| `SocketGenerations.SocketHook.OnReconnect` | graph-ui/src/hooks/useWebSocket.ts:206-223 | in place, the manual reconnect |
| `SocketRecovery.AlwaysUnderWay` | graph-ui/src/hooks/useWebSocket.ts:67-250 | after any run a mounted hook with a project has a credential request out, a timer pending, or a socket of its generation that has not closed |
| `SocketRecovery.AlwaysRecovers` | graph-ui/src/hooks/useWebSocket.ts:67-250 | and is at most four events of the browser and the server away from an open socket that shows as connected |
| `SocketRecovery.WaitsByFailures` | graph-ui/src/hooks/useWebSocket.ts:195-204 | the counter is the number of attempts that failed since one succeeded or was asked for, and a pending timer waits 1, 2, 4, 8 or 15 seconds by it |
| `SocketRecovery.FailureSchedules` | graph-ui/src/hooks/useWebSocket.ts:79-204 | every failed attempt leaves one timer, for the current project, that waits as the failures before it demand |
| `SocketRecovery.HeardIsDelivered` | graph-ui/src/hooks/useWebSocket.ts:116-143 | over any run just the notifications of the then current socket are delivered, in order |
| `SocketRecovery.TroubleCloses` | graph-ui/src/hooks/useWebSocket.ts:156-180 | after an error or a missing pong the socket is closed or closing |
| `SocketRecovery.SwitchStartsOver` | graph-ui/src/hooks/useWebSocket.ts:225-250 | a change of project ends all that was under way and asks for a credential for the new one, an unmount only ends it |
| `SocketRecovery.ReconnectStartsOver` | graph-ui/src/hooks/useWebSocket.ts:206-223 | so does a manual reconnect, for the project it has |
| `ConnectedFlag.StepFlag` | graph-ui/src/hooks/useWebSocket.ts:67-250 | while `connected` has told the truth, an event keeps it true exactly when it does not take the open socket away unheeded |
| `ConnectedFlag.OpenShows` | graph-ui/src/hooks/useWebSocket.ts:105-154 | in every run an open current socket shows as connected |
| `ConnectedFlag.TruthfulExactlyWhen` | graph-ui/src/hooks/useWebSocket.ts:67-250 | `connected` implies an open socket at every moment of a run exactly when no event took an open socket away before its close event was heeded |
| `ConnectedFlag.ReconnectMisleads` | graph-ui/src/hooks/useWebSocket.ts:206-223 | a manual reconnect whose close event comes later, and a refused credential, leave `connected` with no socket up |
| `ConnectedFlag.StillMisleads` | graph-ui/src/hooks/useWebSocket.ts:79-85 | and every further refusal leaves it so |
| `MannWhitney.MannWhitneyU` | v2/scripts/rigorous-benchmark-r78.ts:225-258 | U1 and U2 are the pairwise statistics of the two samples, z and p follow from them and the tie excess |
| `MannWhitney.AverageRanks` | v2/scripts/rigorous-benchmark-r78.ts:233-243 | every rank is one half more than the value's pairwise score, and the tie groups of two or more are counted |
| `MannWhitney.FirstRankSum` | v2/scripts/rigorous-benchmark-r78.ts:244-247 | the rank sum of the first sample in sorted order |
| `MannWhitney.GroupRank` | v2/scripts/rigorous-benchmark-r78.ts:237-241 | the average rank of a tie group from the values below and in it |
| `MannWhitney.RankSumIsPairwise` | v2/scripts/rigorous-benchmark-r78.ts:244-248 | in any arrangement inside ties, the rank sum less n(n+1)/2 counts the greater pairs plus half the tied ones |
| `MannWhitney.PairwiseComplement` | v2/scripts/rigorous-benchmark-r78.ts:248-249 | U1 + U2 is the number of pairs |
| `MannWhitney.DominanceIsDifference` | v2/scripts/rigorous-benchmark-r78.ts:260-267 | the dominance count is U1 - U2 |
| `MannWhitney.CliffsDelta` | v2/scripts/rigorous-benchmark-r78.ts:260-267 | the delta is the dominance over the number of pairs, undefined for an empty sample |
| `MannWhitney.TieExcessBound` | v2/scripts/rigorous-benchmark-r78.ts:251-254 | the sum of t^3 - t is between 0 and N^3 - N, reached exactly by one tie group |
| `MannWhitney.RadicandSign` | v2/scripts/rigorous-benchmark-r78.ts:254 | the radicand is never negative, and zero exactly when all values are equal |
| `MannWhitney.SigmaPositive` | v2/scripts/rigorous-benchmark-r78.ts:254-255 | sigma is positive exactly when not all values are equal |
| `MannWhitney.ZStandardized` | v2/scripts/rigorous-benchmark-r78.ts:248-256 | z is half the difference of the two statistics less one half, in units of the root of the tie-corrected variance, and 0 exactly where that is 0 |
| `Arena.RunSafe` | v1-reference/src/foundation/arena.c:25-154 | over every run, failed grows included: grants are aligned, inside their block and disjoint, the total is their sum since the last reset, no block leaks or is freed twice |
| `Arena.BlocksBounded` | v1-reference/src/foundation/arena.c:42-55 | blocks that at least double are together smaller than twice the last |
| `Arena.RunBlocksBounded` | v1-reference/src/foundation/arena.c:38-56 | and so they are after any run |
| `Arena.AllocKeepsGrants` | v1-reference/src/foundation/arena.c:58-76 | through any run of allocations no block is moved, freed or resized and every grant still lies inside its block |
| `Arena.AllocKeeps` | v1-reference/src/foundation/arena.c:58-76 | one allocation keeps structure and grants |
| `ArenaGrowth.RefusedExactlyWhen` | v1-reference/src/foundation/arena.c:38-76 | after any run a request is refused, and nothing changed, exactly when it is for nothing, there is no block, or it does not fit behind what callers hold of the last block and 256 blocks are held or `malloc` fails |
| `ArenaGrowth.GrantedWhere` | v1-reference/src/foundation/arena.c:38-76 | a granted request goes right behind the others without a new block if it fits, else to the start of one new block of twice the last size or its own |
| `ArenaGrowth.EveryRequestGranted` | v1-reference/src/foundation/arena.c:25-76 | in a run in which every `malloc` succeeds and fewer than 256 blocks are held, every request for memory is granted |
| `ArenaGrowth.ManyBlocksAreLarge` | v1-reference/src/foundation/arena.c:25-56 | to hold `k + 1` blocks a `malloc` of 64 times two to the `k` must have succeeded |
| `ArenaGrowth.ResetReuses` | v1-reference/src/foundation/arena.c:130-147 | a reset keeps the first block, frees just the others, and the first block is handed out again from its start |
| `Arena.ResetInv` | v1-reference/src/foundation/arena.c:130-147 | a reset keeps the structure and holds no grant |
| `Arena.ResetOwns` | v1-reference/src/foundation/arena.c:130-147 | a reset frees just the blocks after the first |
| `Arena.DestroyKeeps` | v1-reference/src/foundation/arena.c:149-154 | destroying frees every block |
| `Arena.CbmArena.InitSized` | v1-reference/src/foundation/arena.c:25-36 | the constructed arena is the initial state, at least 64 bytes |
| `Arena.CbmArena.Init` | v1-reference/src/foundation/arena.c:21-23 | the default size |
| `Arena.CbmArena.GrowBy` | v1-reference/src/foundation/arena.c:38-56 | grows in place as the model does, or changes nothing |
| `Arena.CbmArena.Allocate` | v1-reference/src/foundation/arena.c:58-76 | allocates in place as the model does |
| `Arena.CbmArena.ResetAll` | v1-reference/src/foundation/arena.c:130-147 | resets in place as the model does |
| `Arena.CbmArena.DestroyAll` | v1-reference/src/foundation/arena.c:149-154 | destroys in place as the model does |
| `Arena.CbmArena.Total` | v1-reference/src/foundation/arena.c:156-158 | the running total |
| `FocusComposer.BoundedContentRect` | graph-ui/src/lib/graph-focus-composer.ts:32-45 | a non-empty rectangle inside the viewport for every positive viewport, none otherwise |
| `FocusComposer.ComposeStellarFocusViewport` | graph-ui/src/lib/graph-focus-composer.ts:52-96 | centres the padded frame at the clamped zoom; nothing exactly without a viewport or a framed target |
| `FocusComposer.ExtentsFrame` | graph-ui/src/lib/graph-focus-composer.ts:59-77 | the padded box is the tightest around the origin and the framed targets |
| `FocusComposer.FrameFits` | graph-ui/src/lib/graph-focus-composer.ts:82-95 | the frame is shown in full exactly when the zoom is not clamped from below |
| `FocusComposer.TargetsShown` | graph-ui/src/lib/graph-focus-composer.ts:82-95 | then every non-context target with its padding is inside the rectangle |
| `FocusComposer.ClampedHidesOne` | graph-ui/src/lib/graph-focus-composer.ts:82-95 | when it is clamped and the focus is at the origin, some target is not |
| `StellarConstellation.Families` | graph-ui/src/lib/graph-stellar-layout.ts:86-121 | the families are the node sets under their keys, each key once, every node in one; under a collation they and their members are in order |
| `StellarConstellation.OnePlace` | graph-ui/src/lib/graph-stellar-layout.ts:95-104 | a node stands at one place of one family |
| `StellarConstellation.FullTurn` | graph-ui/src/lib/graph-stellar-layout.ts:121-129 | spans and gaps sum to exactly one full turn |
| `StellarConstellation.SectorsDisjoint` | graph-ui/src/lib/graph-stellar-layout.ts:126-151 | sectors follow each other with the gap between them |
| `StellarConstellation.SectorsCloseTurn` | graph-ui/src/lib/graph-stellar-layout.ts:126-151 | after the last sector the circle closes at the first |
| `StellarConstellation.AngleInSector` | graph-ui/src/lib/graph-stellar-layout.ts:138-141 | every member's angle is strictly inside its sector |
| `StellarConstellation.AnglesIncrease` | graph-ui/src/lib/graph-stellar-layout.ts:138-141 | angles increase strictly in sort order despite the jitter |
| `StellarConstellation.MembersFanOut` | graph-ui/src/lib/graph-stellar-layout.ts:128-151 | the members of a family fan out inside the sector, and the next family starts beyond it and the gap |
| `StellarOverview.ComputeConstellation` | graph-ui/src/lib/graph-stellar-layout.ts:78-155 | one target for every node and no other; every family's members stand on rays strictly inside its sector, in sort order, as far out as their degrees demand, and the sectors fill the turn by the roots of the families' sizes |
| `StellarOverview.PlacedIsOverview` | graph-ui/src/lib/graph-stellar-layout.ts:121-151 | what the targets look like: rim, gap, sectors, angles, radii, hubs |
| `StellarOverview.BetweenCoreAndRim` | graph-ui/src/lib/graph-stellar-layout.ts:133-146 | with a pull between 0 and 1 every node stands between 40 and the rim and 8 |
| `StellarOverview.LinkedNodesNearer` | graph-ui/src/lib/graph-stellar-layout.ts:133-146 | a node with at least as many links as another stands no farther out, but for the rings of 16 |
| `StellarFamilies.FamilyOfNode` | graph-ui/src/lib/graph-stellar-layout.ts:88-99 | a node is in the family of its key, or in the collapsed one when other keys occur and its own has fewer than four nodes or 1.5 percent |
| `StellarFamilies.FamilyLarge` | graph-ui/src/lib/graph-stellar-layout.ts:88-104 | every family but the collapsed one holds all the nodes of its key and is large enough |
| `StellarFamilies.FamiliesFew` | graph-ui/src/lib/graph-stellar-layout.ts:88-121 | there are never more than 67 families |
| `StellarDepths.DistanceByWalks` | graph-ui/src/lib/graph-stellar-layout.ts:157-175 | a distance is the length of a walk that no walk undercuts |
| `StellarDepths.BreadthFirstDepths` | graph-ui/src/lib/graph-stellar-layout.ts:157-175 | exactly the shortest directed distances up to four |
| `StellarKeys.LayerKeyRoundTrip` | graph-ui/src/lib/graph-stellar-layout.ts:253-265 | a layer key gives role and depth back |
| `StellarKeys.ModuleKeyRoundTrip` | graph-ui/src/lib/graph-stellar-layout.ts:446-451 | a module key gives its lane key back, colons and all |
| `StellarKeys.ModuleKeyInjective` | graph-ui/src/lib/graph-stellar-layout.ts:423-426 | equal module keys have equal roles, depths and lanes |
| `StellarKeys.FlowLaneNonEmpty` | graph-ui/src/lib/graph-stellar-layout.ts:62-66 | a lane key is empty exactly without a path segment and with an empty label |
| `StellarFlow.BuildLinks` | graph-ui/src/lib/graph-stellar-layout.ts:209-220 | the two adjacency maps hold just the edges between two different visible nodes |
| `StellarFlow.RoleByDistance` | graph-ui/src/lib/graph-stellar-layout.ts:227-252 | outgoing, incoming or bidirectional at a depth exactly by which distance is smaller |
| `StellarFlow.NoRoleBeyondFour` | graph-ui/src/lib/graph-stellar-layout.ts:227-252 | no role exactly for the focus and for nodes beyond four steps both ways |
| `StellarFlow.LaneXBound` | graph-ui/src/lib/graph-stellar-layout.ts:177-191 | a layer's grid is at most 130 wide at any fan-out |
| `StellarFlow.LanesDistinct` | graph-ui/src/lib/graph-stellar-layout.ts:177-191 | no two places of a layer coincide |
| `StellarFlow.LaneYBound` | graph-ui/src/lib/graph-stellar-layout.ts:177-191 | a layer is at most 760 tall, or as tall as rows 18 apart need |
| `StellarFlow.SidesOfFocus` | graph-ui/src/lib/graph-stellar-layout.ts:269-278 | incoming at most -91, outgoing at least 91, bidirectional at least 43 away, by parity |
| `StellarFlow.IncomingDistanceIsOutward` | graph-ui/src/lib/graph-stellar-layout.ts:209-223 | distances along the incoming links are distances along the edges to the focus |
| `StellarFlow.EdgeDepthIsDistance` | graph-ui/src/lib/graph-stellar-layout.ts:346-376 | an edge given depth d ends a shortest walk of d steps from or to the focus |
| `StellarLayout.AssignRoles` | graph-ui/src/lib/graph-stellar-layout.ts:224-257 | roles as the two distances say, layers just the nodes of each role and depth |
| `StellarLayout.PlaceLayers` | graph-ui/src/lib/graph-stellar-layout.ts:259-286 | every layer seated, under a collation in lane order, and every other node untouched |
| `StellarLayout.PlaceContexts` | graph-ui/src/lib/graph-stellar-layout.ts:288-304 | just the unrelated nodes move to the ring |
| `StellarLayout.ComputeStellarFlowLayout` | graph-ui/src/lib/graph-stellar-layout.ts:201-316 | one target per node; with a drawn selection the focus at the origin and every node's role and depth as its distances say, each seated in its layer or on the ring; else the overview |
| `StellarLayout.OneFocus` | graph-ui/src/lib/graph-stellar-layout.ts:306-315 | exactly the selected node is the focus |
| `StellarLayout.ShownRoles` | graph-ui/src/lib/graph-stellar-layout.ts:274-315 | the focus at the origin at depth zero, roles and depths shown as assigned, the rest without |
| `StellarLayout.DepthIsSmallerDistance` | graph-ui/src/lib/graph-stellar-layout.ts:227-252 | the depth shown is the smaller of the two distances, none exactly when both exceed four |
| `StellarProperties.LeftAndRight` | graph-ui/src/lib/graph-stellar-layout.ts:269-286 | incoming nodes strictly left and outgoing strictly right of the focus |
| `StellarProperties.NobodyCovered` | graph-ui/src/lib/graph-stellar-layout.ts:266-286 | two nodes of one role and depth never share a position |
| `StellarProperties.ContextOnRing` | graph-ui/src/lib/graph-stellar-layout.ts:288-304 | a context node keeps its direction and stands 1.16 times as far out as before, at least 520 |
| `StellarProperties.UnrelatedOnRing` | graph-ui/src/lib/graph-stellar-layout.ts:288-304 | in a finished layout every unrelated node is on the ring |
| `StellarProperties.EdgeDepthOnShortestPath` | graph-ui/src/lib/graph-stellar-layout.ts:346-376 | in a finished layout a real edge given a depth lies on a shortest path of that length |
| `StellarReach.StandsInColumn` | graph-ui/src/lib/graph-stellar-layout.ts:269-286 | every node of a layer stands within 65 of its column, and in it when the layer has at most two |
| `StellarReach.FartherOut` | graph-ui/src/lib/graph-stellar-layout.ts:269-286 | a deeper layer of one side stands farther out, by the distance of the columns but for the width of the grids |
| `StellarReach.EdgeDepthExactly` | graph-ui/src/lib/graph-stellar-layout.ts:346-376 | an edge is shown with depth `d` exactly when it leads from `d - 1` to `d` steps away on the outgoing side, or from `d` to `d - 1` on the incoming one, between nodes that are no nearer the other way round |
| `StellarReach.FocusEdgesHaveDepth` | graph-ui/src/lib/graph-stellar-layout.ts:352-361 | every edge that leaves or enters the focus has depth one |
| `StellarProperties.RailsCountDirectedNodes` | graph-ui/src/lib/graph-stellar-layout.ts:412-453 | layer counts sum to the directed nodes, module counts too where no label is empty |
| `StellarLanes.CollectLanes` | graph-ui/src/lib/graph-stellar-layout.ts:387-427 | the two maps hold the summary of every non-empty layer and module under its key |
| `StellarLanes.ColonsLawful` | graph-ui/src/lib/graph-stellar-layout.ts:424-450 | keys joined by colons stay apart and give the lane back |
| `StellarLanes.ExtentIsTight` | graph-ui/src/lib/graph-stellar-layout.ts:387-410 | the extent of a group is that of its lowest and highest member |
| `StellarLanes.SummarizeStellarFlowLanes` | graph-ui/src/lib/graph-stellar-layout.ts:413-453 | layers and modules: every group once, with count, mean and extent, by depth and side, and modules by key under a collation |
| `StellarLanes.LayersTotal` | graph-ui/src/lib/graph-stellar-layout.ts:418-444 | layer counts sum to the directed targets |
| `StellarLanes.ModulesTotal` | graph-ui/src/lib/graph-stellar-layout.ts:424-451 | module counts sum to the labelled directed targets |
| `StellarLanes.AtMostTwelveRails` | graph-ui/src/lib/graph-stellar-layout.ts:412-444 | at most twelve layers at depths one to four |
| `StellarRails.TwelveRails` | graph-ui/src/lib/graph-stellar-layout.ts:412-445 | every layout of a concrete graph of thirteen nodes has twelve rails |
| `StellarRails.LevelsAreDistances` | graph-ui/src/lib/graph-stellar-layout.ts:157-175 | levels that climb by at most one along every edge and have a predecessor each are the distances |
| `SidebarBuild.EnsureChild` | graph-ui/src/components/Sidebar.tsx:43-51 | finds or adds the child in place; the tree stays well formed |
| `SidebarBuild.AddNode` | graph-ui/src/components/Sidebar.tsx:36-53 | files one node in place, creating just the directories on its way |
| `SidebarBuild.Collect` | graph-ui/src/components/Sidebar.tsx:55-63 | sets the ids of a directory and everything below it to the ids of the nodes filed there |
| `SidebarBuild.BuildFileTree` | graph-ui/src/components/Sidebar.tsx:34-67 | the tree holds exactly the directories on the way to some node, each with its path, nodes and ids |
| `SidebarTree.FlattenSingleChild` | graph-ui/src/components/Sidebar.tsx:69-82 | the recursive compression with its inner loop computes the specified tree |
| `SidebarTree.CollapsedOnce` | graph-ui/src/components/Sidebar.tsx:74-78 | the inner loop turns at most once on a child already compressed |
| `SidebarTree.ForestSurvivors` | graph-ui/src/components/Sidebar.tsx:69-82 | below the top level exactly the directories that are no links of a chain stay, each once, with path and ids |
| `SidebarTree.ForestKeepsDirect` | graph-ui/src/components/Sidebar.tsx:69-82 | every directly filed node stays once |
| `SidebarTree.CompressionKeeps` | graph-ui/src/components/Sidebar.tsx:69-82 | for the tree of any nodes: survivors, their paths and ids, and all directly filed nodes |
| `SidebarTree.CompressionShortens` | graph-ui/src/components/Sidebar.tsx:74-78 | the top level is kept, and below it no directory with one child and no nodes of its own is left |
| `SidebarNames.NameOfChain` | graph-ui/src/components/Sidebar.tsx:69-82 | an entry stands for the end of its chain and is named after the first two links, so by the path there exactly when there are no more |
| `SidebarNames.DeepNameStopsShort` | graph-ui/src/components/Sidebar.tsx:69-82 | for one file in `src/a/b/c` the entry under `src` is named `a/b` and stands for `src/a/b/c` |

## Left out

- Floating point: numbers are reals, so overflow, rounding error, infinities and NaN are not modelled.
- `sqrt`, `hypot`, `cos`, `sin`, `atan2`, `log1p`, `pow`, `normalCdf`, `localeCompare` and the string hash are
  parameters; only the laws named above are used of them.
- `size_t` wrap-around in the arena; the sizes in `Arena` are unbounded naturals.
- `cbm_arena_calloc`, `cbm_arena_strdup`, `cbm_arena_strndup` and `cbm_arena_sprintf` only fill memory that the
  allocation hands out.
- Circles are packed for radii and gaps that are not negative, as both callers have them, and for distinct circle
  objects.
- ExactScope.BuildExactScopeLayout: gives no plan when some domain owns no cluster; the source goes on with a domain
  radius of minus infinity.
- ExactScopeCensus.AtMostSixtyClusters: assumes that neither the scope nor a path contains the NUL character, which
  joins domain and file in a composite key; with it two pairs could have one composite key.
- The insertion order of JavaScript maps is not modelled where a sort follows or where the order does not matter.
- Node ids are distinct in the stellar layouts, as the server keys nodes by id.
- The effect rerun and the render after it are one step; `loadMore` and `retry` are taken while mounted, from the
  callbacks of the latest render.
- Of `useWebSocket` the ping interval, the subscribe message and the parsing of messages; the close after a missing pong
  is an event. The text of errors is a parameter in `useRevisionBoundPages`.
- `summarizeStellarConstellation` and `percentile` read a finished layout or a sorted sample once, for a legend and a
  report; nothing modelled here reads their results. `stellarFocusWorldBoxFitsViewport` is the test of one label box
  against the margins of `BoundedContentRect`. `graphCommunityKey` and `graphDomainKey` name the communities of the
  server's queries, which are not the domains of the layout.
- SidebarTree.FlattenSingleChild: works on the tree as a value, a snapshot of the directory objects.
- `useExactNodeSearch` and `useGraphData` repeat the paging machine on a smaller scale; canvas drawing, forces, markup,
  storage, the server and the indexer are not part of this model.
