# Verified models of route planning, chat server and traffic simulation

This Dafny project models four parts of the repository and proves what they keep over all inputs and all runs.

**Route search.** `RoadMap.dfy` holds nodes, ways, roads and distances; `SearchSpec.dfy` what one expansion and one
pop do; `SearchTree.dfy`, `SearchRuns.dfy`, `SearchEnds.dfy` and `SearchResults.dfy` prove the discovery tree, the
invariants of whole runs, termination and the outcome; `RoutePlanning.dfy` has the node, model and planner objects,
whose methods are proved to do exactly those steps. The search is not a textbook A*: an expansion offers only the
nearest unvisited node of each drivable road through it, nodes are marked when queued, child lists are never
cleared, and the open list may hold duplicates; all of that is kept. Shortest paths are neither promised by the
code nor claimed here. Distances are exact reals given as a parameter: non-negative, symmetric, zero from a node
to itself, with the triangle inequality; different nodes may coincide, and `Plane.dfy` shows that the code's distance
between coordinates is such. Two facts about the code are worth knowing:
the start node is never tested against the goal (`SearchResults.StartIsNeverFound`), and nodes at distance zero
are never offered, so on a map where nodes coincide the search can run out although the goal is connected. From the
roads alone, the goal is found in every layout if and only if it shares a drivable road with the start
(`SearchResults.FoundWhereverLaid`). With the layout given, the search finds every target to which a sure trail leads:
a chain of drivable roads, each with more than one spot and left at the node it lists first on its spot
(`SearchResults.SearchDecides`). Where coinciding nodes of one road lie on the same roads, in particular where nodes of
one road never coincide, such a trail leads to a target whenever one can be reached (`SearchRuns.HarmlessRoutable`);
beyond sure trails the order in which equal sums are popped can decide, as `SearchTies.dfy` shows on one map. Where the
code would take the back of an empty open list, the model reports an exhausted search; `SearchResults.NeverPopsEmpty`
shows it does not happen while a sure trail leads to a target.

**Ring assembly.** `Chains.dfy` defines ways joined end to end and what a ring is, independently of the search;
`Segments.dfy` the undirected segments; `Positions.dfy` how erased lists relate to the original; `RingBuilding.dfy`
has the backtracking search over its two vectors, the extraction of a ring and the outer loop over the way table;
`RingFacts.dfy` proves uniqueness, partition, closedness and conservation of the result. Every
way named by the multipolygon must exist and have a node, which the code reads unguarded. Ways are looked up in the
current table by number. The branches of the recursive search are separate methods of the same class.

**Chat server.** `ChatTable.dfy` is the user table, which does not itself keep names distinct; `ChatProtocol.dfy`
the events and the server object; `ChatSessions.dfy` proves that connections and table agree in every reachable
state, who receives what and in which words; `ChatConnections.dfy` that a connection's state follows from the events
on it; `ChatHistory.dfy` that replies are a function of the history. Runs start from a table
with distinct names in which nobody is logged in, and may contain any number of shutdowns and restarts.

**Traffic.** `TrafficSystem.dfy` is the transition system: any number of vehicles and intersections, with the size
check, the blocked check, blocking and popping of a queue processor as separate steps between those of the vehicles;
`TrafficSafety.dfy` proves its invariant step by step, `TrafficRuns.dfy` safety and fairness over whole runs,
`TrafficProgress.dfy` that no waiting vehicle is ever beyond serving, and `TrafficFairness.dfy` that in every endless
run in which no thread is stopped for ever each is served in its turn; `TrafficObjects.dfy` has the queue,
intersection and vehicle objects, whose methods are single steps and, for the turns of the two threads, runs.
`arrivals`, `grants` and `occupant` are history that no step reads.

`dafny verify dfyconfig.toml` checks the whole project.

## Model

| member | source | states |
|---|---|---|
| RingBuilding.Tracker.TrackRec | Route Planning/src/model.cpp:196-239 | the search answers true exactly when the chain so far can be closed by distinct unused ways in any order and any directions (from an empty chain: when any ring exists); on true it has appended exactly those ways, each once, oriented and joined end to end, and marked exactly them; on false `used` and `nodes` are as at entry |
| RingBuilding.Tracker.Start | Route Planning/src/model.cpp:201-213 | the branch for an empty chain: trying each free way forwards only decides whether any ring exists at all |
| RingBuilding.Tracker.Continue | Route Planning/src/model.cpp:214-238 | the branch for a chain: a closed chain of more than one node stops the search, otherwise every free way is tried |
| RingBuilding.Tracker.TryWay | Route Planning/src/model.cpp:221-235 | one way at the chain's end: success exactly if it attaches and the rest can be completed; otherwise both vectors are restored |
| Chains.RingStartsForwards | Route Planning/src/model.cpp:202-211 | every ring can be walked so that its first way runs forwards, so starting ways forwards only loses nothing |
| Chains.BackwardsLinked | Route Planning/src/model.cpp:229-230 | a linked chain of pieces walked from its other end is linked and of the same length |
| Chains.ChainAppend | Route Planning/src/model.cpp:226-230 | appending pieces appends all their nodes: a junction node appears twice |
| Chains.ClosesViaComplete | Route Planning/src/model.cpp:224-230 | when both ends of a way fit, trying one direction loses no completion |
| Chains.CanCloseUnfold | Route Planning/src/model.cpp:215-238 | an open chain can be closed exactly if some free way can be attached and the longer chain closed |
| Chains.CanRingUnfold | Route Planning/src/model.cpp:201-213 | a ring in any order and direction exists exactly if some free way, taken forwards, can be completed to one |
| RingFacts.LeadingUnique | Route Planning/src/model.cpp:219-237 | the contract of the search leaves one answer for a given chain: the first completable way at every level |
| RingFacts.FoundRingUnique | Route Planning/src/model.cpp:202-211 | and one ring from an empty chain: the first in trial order |
| RingFacts.ResultUnique | Route Planning/src/model.cpp:259-277 | and so the contract of a whole list leaves one result list and one table |
| RingBuilding.Track | Route Planning/src/model.cpp:241-251 | a ring's nodes exactly if the open ways admit a ring, with exactly its ways overwritten by -1; otherwise nothing is changed |
| RingBuilding.EraseNegative | Route Planning/src/model.cpp:270 | erasing the negative entries leaves the unused ways in order |
| Positions.KeptAfter | Route Planning/src/model.cpp:266-270 | erasing round after round keeps exactly the original positions no round has used, in order |
| RingBuilding.NextRing | Route Planning/src/model.cpp:267-270 | one round: the first further ring, in trial order, out of the ways left over, keeping the split of the original positions, or a proof that none is left |
| RingBuilding.RingModel.Separate | Route Planning/src/model.cpp:261-264 | the numbers split into closed and open ways, each in order |
| Chains.ChainOfOne | Route Planning/src/model.cpp:226-230 | and a single piece is its way's nodes, forwards or backwards |
| RingFacts.ClosedInOrder | Route Planning/src/model.cpp:255-264 | the closed ways are exactly the entries whose way has more than one node and ends where it starts, at increasing positions of the list |
| RingFacts.OpenInOrder | Route Planning/src/model.cpp:255-264 | the open ways are exactly the other entries, at increasing positions |
| RingBuilding.RingModel.Process | Route Planning/src/model.cpp:259-277 | the open ways are split between new rings, each the first in trial order of what was left, appended to the table in order after the closed ones, and a rest admitting no ring in any order or direction |
| RingBuilding.RingModel.BuildRings | Route Planning/src/model.cpp:253-281 | both lists of the multipolygon are so processed, outer first and inner on the grown table |
| RingFacts.ResultClosed | Route Planning/src/model.cpp:255-276 | every resulting number names a closed way, the originally closed ones come first in order, and every earlier way is unchanged |
| RingFacts.OuterSurvivesInner | Route Planning/src/model.cpp:279-280 | processing the inner list leaves every outer way closed and as it was |
| RingFacts.SecondRunIdle | Route Planning/src/model.cpp:259-277 | running ring building on its own result changes neither the list nor the table |
| RingFacts.EveryPositionOnce | Route Planning/src/model.cpp:266-275 | each originally open position is consumed by exactly one piece of the new rings or is left over |
| RingFacts.AtMostHalf | Route Planning/src/model.cpp:263-275 | each new ring joins at least two open ways, so there are at most half as many rings as open ways |
| RingFacts.SegmentsConserved | Route Planning/src/model.cpp:253-281 | the undirected segments of the resulting rings and the left-over ways together are those of the original ways, with multiplicity |
| Segments.ChainSegs | Route Planning/src/model.cpp:226-230 | a chain of forward and reversed ways has exactly its ways' segments: the doubled junction nodes add none |
| RoutePlanning.CreateNodeToRoadHashmap | Route Planning/src/route_model.cpp:15-26 | the index lists for every node what a scan of the roads finds, and has entries for exactly the nodes of drivable roads |
| RoutePlanning.IndexRoad | Route Planning/src/route_model.cpp:18-23 | one drivable road is added to a node's entry once per occurrence of the node |
| RoadMap.RoadsOrdered | Route Planning/src/route_model.cpp:16-23 | an entry lists roads in road order |
| RoadMap.RoadsCounted | Route Planning/src/route_model.cpp:16-23 | an entry lists each drivable road as often as the road lists the node, and no footway |
| RoadMap.IndexCounts | Route Planning/src/route_model.cpp:16-23 | counted on the tables themselves: a road occurs in a node's entry as often as its way lists the node, and not at all if it is a footway |
| RoadMap.NodeRoadsMembers | Route Planning/src/route_model.cpp:16-23 | a road is in a node's entry exactly if it is drivable and passes through the node |
| SearchSpec.NearestMeans | Route Planning/src/route_model.cpp:29-42 | the neighbour found on a way is the first of its unvisited nodes at the smallest non-zero distance, and there is one whenever such a node exists |
| RoutePlanning.RouteModel.FindNeighbor | Route Planning/src/route_model.cpp:29-42 | the loop computes that node |
| SearchSpec.FoundMeans | Route Planning/src/route_model.cpp:45-52 | expansion newly offers only unvisited nodes at non-zero distance that share a drivable road with the expanded node |
| SearchSpec.FoundOnRoad | Route Planning/src/route_model.cpp:45-52 | a drivable road through the expanded node with an eligible node contributes one, no farther than that node and listed before it when as far |
| SearchSpec.OffersInOrder | Route Planning/src/route_model.cpp:45-52 | for any list of roads, each with an eligible node yields the first nearest one, in the order of the list and repeats kept, and the others yield nothing |
| SearchSpec.ChildrenInOrder | Route Planning/src/route_model.cpp:45-52 | expanding a node leaves its child list in place and appends those finds for the roads through it |
| RoutePlanning.RouteModel.TryRoad | Route Planning/src/route_model.cpp:47-50 | one road appends its find to `neighbors`, if it has one |
| RoutePlanning.RouteModel.FindNeighbors | Route Planning/src/route_model.cpp:45-52 | `neighbors` becomes the old list followed by the finds of all roads in order |
| RoadMap.ClosestMeans | Route Planning/src/route_model.cpp:60-74 | a strictly improving scan yields the first position at the smallest distance |
| RoadMap.DrivableNodesMeans | Route Planning/src/route_model.cpp:64-66 | the scanned nodes are exactly those a drivable road passes through |
| RoutePlanning.RouteModel.FindClosestNode | Route Planning/src/route_model.cpp:55-77 | the node returned is on a drivable road, no node of a drivable road is nearer, and every one of an earlier road, or earlier on its road, is farther; none is returned exactly if no drivable road has a node |
| RoadMap.ClosestOnRoads | Route Planning/src/route_model.cpp:60-74 | the scan keeps the first closest node, by road and then by position on it |
| SearchRuns.OneParent | Route Planning/src/route_planner.cpp:37-46 | at no time of any run is a node in the `neighbors` lists of two nodes, or the start in any |
| SearchRuns.StepQueues | Route Planning/src/route_planner.cpp:37-46 | a round queues every entry of the expanded node's child list, old or new and as often as it is listed, and takes one entry off |
| SearchTree.VisitedStable | Route Planning/src/route_planner.cpp:37-46 | expanding, or expanding again, leaves parent, g, h and mark of every visited node as they were |
| SearchTree.NewlyVisited | Route Planning/src/route_planner.cpp:37-46 | the nodes an expansion marks become its children, with g one step longer and h the distance to the goal |
| SearchTree.ExpandKeepsTree | Route Planning/src/route_planner.cpp:37-46 | every expansion keeps the discovery tree |
| SearchTree.PathProperties | Route Planning/src/route_planner.cpp:79-90 | parent chains start at the start node, repeat no node, follow drivable roads, and g is their length |
| SearchTree.NoShortcut | Route Planning/src/route_planner.cpp:42-42 | g is at least the straight-line distance from the start |
| SearchRuns.RunInv | Route Planning/src/route_planner.cpp:105-121 | in every configuration of every run the tree holds, open entries are visited non-start nodes, and visited targets are pending |
| SearchRuns.RunStable | Route Planning/src/route_planner.cpp:37-46 | over a whole run a node once reached keeps parent, g and h |
| SearchRuns.ExpandKeepsRoad | Route Planning/src/route_planner.cpp:37-46 | on every map, although one node per road is offered: a road with a visited node keeps a node pending, or each node of it is visited, forestalled by a visited node of its spot that the road lists before it, or on the one spot where the whole road lies |
| SearchRuns.RunRoads | Route Planning/src/route_planner.cpp:105-121 | so it is for every drivable road in every configuration of every run |
| SearchRuns.SureStepVisited | Route Planning/src/route_model.cpp:29-52 | with nothing pending, a road with a visited node and more than one spot has visited, on each spot, the node it lists first, the start excepted |
| SearchRuns.EmptyMeansNoRoute | Route Planning/src/route_planner.cpp:111-118 | on every map, with nothing left to pop no sure trail leads to a target, a sure trail being a chain of drivable roads from the start, each with more than one spot and left at the node it lists first on its spot, the start excepted |
| SearchRuns.HarmlessRoutable | Route Planning/src/route_model.cpp:35-35 | where coinciding nodes of one drivable road lie on the same drivable roads, and no other node of a road lies with a start on the goal's spot, a sure trail leads to a target whenever one can be reached |
| SearchRuns.HitMeansReachable | Route Planning/src/route_planner.cpp:114-117 | where the loop stops, a target connected to the start has been reached |
| SearchRuns.PoppedSumsGrow | Route Planning/src/route_planner.cpp:56-68 | g+h of the popped nodes never decreases over a run, is at least the distance from start to goal, and no open entry is below the last popped one |
| SearchEnds.UnvisitedShrink | Route Planning/src/route_planner.cpp:37-46 | an expansion that finds a node leaves fewer unvisited nodes |
| SearchEnds.WeightDrops | Route Planning/src/route_planner.cpp:37-46 | an expansion that finds none lowers the total unfolded size of all pending entries, duplicates counted, by exactly one |
| SearchEnds.TotalWeightPermuted | Route Planning/src/route_planner.cpp:64-66 | sorting the open list does not change that size |
| SearchEnds.StepDecreases | Route Planning/src/route_planner.cpp:111-118 | every round of the loop decreases the pair of both measures |
| SearchEnds.EverySearchEnds | Route Planning/src/route_planner.cpp:111-118 | no search goes on for ever |
| SearchEnds.CanStep | Route Planning/src/route_planner.cpp:61-68 | a round is possible whenever anything is queued |
| SearchResults.SearchDecides | Route Planning/src/route_planner.cpp:105-121 | on every map the search stops at a node only if a target is reachable and runs out only if no sure trail leads to one; where coinciding nodes are harmless it runs out only if no target is reachable |
| SearchResults.NeverPopsEmpty | Route Planning/src/route_planner.cpp:61-68 | while some sure trail leads to a target the list popped from is not empty |
| SearchResults.StartIsNeverFound | Route Planning/src/route_planner.cpp:109-117 | started at its own goal the search never succeeds, since the start is not tested |
| SearchResults.FoundWhereverLaid | Route Planning/src/route_planner.cpp:105-121 | for given roads, the goal is found in every layout of the nodes that keeps start and goal apart, be it in the plane or with any distances, and in every order of equal sums, if and only if it shares a drivable road with the start; a goal connected over several roads only is lost in some layout of the plane |
| SearchResults.HeapedExhausted | Route Planning/src/route_model.cpp:35-35 | the planar layout that loses it, for any such roads: nodes at distance zero are never offered |
| Plane.PlanarDistances | Route Planning/src/route_model.h:22-24 | the distance the code computes from coordinates has every property the search results ask of distances, the triangle inequality included |
| SearchTies.OrderDecides | Route Planning/src/route_planner.cpp:56-68 | on one map in one layout of the plane, with the goal reachable, one order of popping two equal sums finds the goal and the other runs out |
| SearchResults.FinalPathFacts | Route Planning/src/route_planner.cpp:79-95 | the path runs from the start to the goal's spot along drivable roads, repeats no node, and its length is the g reported, at least the straight line |
| RoutePlanning.RoutePlanner.Reach | Route Planning/src/route_planner.cpp:40-44 | one neighbour's parent, h, g and mark are set and nothing else changes |
| RoutePlanning.RoutePlanner.AddNeighbors | Route Planning/src/route_planner.cpp:37-46 | the node objects become the expanded state and every child, old or new, is queued in order |
| RoutePlanning.RoutePlanner.NextNode | Route Planning/src/route_planner.cpp:61-68 | the node popped is the last of a sorted arrangement of the open list, duplicates kept |
| RoutePlanning.SortByCompare | Route Planning/src/route_planner.cpp:56-64 | a permutation of the open list in descending order of g+h |
| RoutePlanning.RoutePlanner.ConstructFinalPath | Route Planning/src/route_planner.cpp:79-95 | the path is the whole parent chain in order and the distance is the metric scale times the last node's g |
| RoutePlanning.RoutePlanner.Round | Route Planning/src/route_planner.cpp:112-113 | expansion and pop are one step of the specified search, or nothing is left to pop |
| RoutePlanning.RoutePlanner.SearchLoop | Route Planning/src/route_planner.cpp:110-118 | from a fresh model the loop ends, after a legal run, at a node on the goal's spot or with nothing to pop |
| RoutePlanning.RoutePlanner.AStarSearch | Route Planning/src/route_planner.cpp:105-121 | the search ends; it succeeds only if a target is reachable and whenever a sure trail leads to one, so exactly when one is reachable where coinciding nodes are harmless; on success path and distance are those of the run's last node |
| ChatTable.Database.QueryUserInfo | ChatRoom/lib/src/database.cpp:3-15 | the first row of the name is reported, and found exactly if there is one |
| ChatTable.Database.UpdateUserStatus | ChatRoom/lib/src/database.cpp:17-25 | the update, row by row: status and descriptor of exactly the rows of the name change |
| ChatTable.Database.SetAllUsersOffline | ChatRoom/lib/src/database.cpp:37-45 | the update, row by row: exactly the rows with a descriptor become idle |
| ChatProtocol.Server.CheckUserInfo | ChatRoom/lib/src/socket_server.cpp:112-144 | reply and table after a login or registration request |
| ChatProtocol.Server.NotifyToOnelineUser | ChatRoom/lib/src/socket_server.cpp:47-56 | one send per row with status 1, in table order, the sender's descriptor excepted |
| ChatProtocol.Server.HandleSingleSocketCon | ChatRoom/lib/src/socket_server.cpp:146-216 | connection table, user table and everything sent after one message or hang-up, in each connection state |
| ChatProtocol.Server.AddSocketToEpoll | ChatRoom/lib/src/socket_server.cpp:35-40 | a new connection starts in the request state |
| ChatProtocol.Server.SignalHandler | ChatRoom/lib/src/socket_server.cpp:5-10 | shutdown makes the logged-in rows idle |
| ChatSessions.EventGood | ChatRoom/lib/src/socket_server.cpp:35-216 | every event keeps connections and user table in agreement |
| ChatSessions.LoginGood | ChatRoom/lib/src/socket_server.cpp:119-136 | a successful login or registration gives the connection its one row |
| ChatSessions.DepartedGood | ChatRoom/lib/src/socket_server.cpp:181-206 | a departure makes exactly the row that the connection owns idle, leaves every other row as it was, and keeps the agreement |
| ChatSessions.ShutdownIdle | ChatRoom/lib/src/database.cpp:37-45 | after a shutdown and restart nobody is logged in, so the agreement holds over any number of restarts |
| ChatSessions.Correspondence | ChatRoom/lib/src/socket_server.cpp:112-216 | in every reachable state authenticated and online connections and status-1 rows correspond one to one, with the same name and descriptor, and all other rows are idle |
| ChatSessions.BroadcastReaches | ChatRoom/lib/src/socket_server.cpp:47-56 | a broadcast goes exactly once to every other authenticated or online connection and to nobody else |
| ChatSessions.RecipientsInOrder | ChatRoom/lib/src/socket_server.cpp:47-56 | a broadcast goes to the descriptors of the status-1 rows other than the sender's, in table order |
| ChatSessions.EitherOrderSame | ChatRoom/lib/src/socket_server.cpp:181-206 | announcing a departure before or after the table update reaches the same connections |
| ChatSessions.AnnouncementsDelivered | ChatRoom/lib/src/socket_server.cpp:175-211 | in every reachable state an option, a line or a hang-up of a session makes the server send the exact text of the notice or line, with the name of the row owning the sending descriptor, once to each other session; an option other than leaving is answered to its sender with one reply of success; a request is answered to its sender only, and no other event sends anything |
| ChatConnections.ConnectionsFollowEvents | ChatRoom/lib/src/socket_server.cpp:35-216 | in every reachable state a descriptor is in the connection table exactly if it was accepted and has neither hung up, chosen to leave nor been shut down since; it waits for a request until one is answered with success, then for an option until one is chosen, and is online from then on; its name is that of its last request |
| ChatConnections.RunPasses | ChatRoom/lib/src/socket_server.cpp:35-216 | every legal run is such a sequence of states |
| ChatHistory.RunRepresents | ChatRoom/lib/src/socket_server.cpp:112-216 | after every run the table holds exactly what the history of registrations, logins, departures and shutdowns says |
| ChatHistory.RepliesFollowHistory | ChatRoom/lib/src/socket_server.cpp:112-144 | every login or registration reply is the one that history calls for |
| ChatHistory.RunOrderly | ChatRoom/lib/src/socket_server.cpp:112-206 | names register once, and sessions of one name or one descriptor never overlap |
| ChatHistory.PasswordsPersist | ChatRoom/lib/src/database.cpp:27-45 | accounts and passwords outlive departures, shutdowns and restarts |
| TrafficObjects.WaitingVehicles.PermitEntryToFirstInQueue | Concurrent Traffic Simulation/src/Intersection.cpp:28-42 | the first promise is fulfilled and the first entry of both lists erased |
| TrafficObjects.Intersection.QueryStreets | Concurrent Traffic Simulation/src/Intersection.cpp:57-70 | the loop computes the streets other than the incoming one |
| TrafficObjects.OthersMeans | Concurrent Traffic Simulation/src/Intersection.cpp:57-70 | each other street as often as it is listed, and the incoming one never |
| TrafficObjects.OthersInOrder | Concurrent Traffic Simulation/src/Intersection.cpp:57-70 | they are the entries other than the incoming street, at increasing positions of the list |
| TrafficObjects.Intersection.ChoicesAllowed | Concurrent Traffic Simulation/src/Vehicle.cpp:93-108 | the choices a vehicle has are exactly those of the transition system: any other street, or back when there is none |
| TrafficObjects.Intersection.AddVehicleToQueue | Concurrent Traffic Simulation/src/Intersection.cpp:80-82 | the push is one step of the transition system |
| TrafficObjects.Intersection.VehicleHasLeft | Concurrent Traffic Simulation/src/Intersection.cpp:97-103 | leaving unblocks the intersection, as one step |
| TrafficObjects.Intersection.PermitFirst | Concurrent Traffic Simulation/src/Intersection.cpp:138 | the pop is one step, takes the first of both lists, and never meets an empty queue |
| TrafficObjects.Intersection.LetFirstIn | Concurrent Traffic Simulation/src/Intersection.cpp:134-139 | blocking and popping together are a two-step run that grants exactly the first in the queue |
| TrafficObjects.Intersection.ProcessVehicleQueue | Concurrent Traffic Simulation/src/Intersection.cpp:126-140 | an uninterrupted turn of the processor is a run of its steps; it grants the first in the queue exactly if there is one and the intersection is not blocked |
| TrafficObjects.VehicleThread.RequestEntry | Concurrent Traffic Simulation/src/Vehicle.cpp:77-83 | the request queues the vehicle at its destination with its new promise, as one step |
| TrafficObjects.VehicleThread.EntryGranted | Concurrent Traffic Simulation/src/Vehicle.cpp:83-87 | the return of the request sets the entered flag, as one step |
| TrafficObjects.VehicleThread.ChooseStreet | Concurrent Traffic Simulation/src/Vehicle.cpp:93-108 | the street at the drawn place among the others, or back when there are none; one the transition system allows |
| TrafficObjects.Intersection.EveryChoiceDrawn | Concurrent Traffic Simulation/src/Vehicle.cpp:98-103 | every allowed street is the choice for some draw below the number of options |
| TrafficObjects.VehicleThread.Turn | Concurrent Traffic Simulation/src/Vehicle.cpp:91-123 | choosing, unblocking and turning are a three-step run; the intersection is left unblocked and the vehicle heads for an end of its new street |
| TrafficProgress.TurnRun | Concurrent Traffic Simulation/src/Vehicle.cpp:111-118 | the three steps of a turn take the vehicle to the other end of the chosen street and empty the intersection |
| TrafficSafety.StepKeeps | Concurrent Traffic Simulation/src/Intersection.cpp:73-141 | every atomic step of every thread keeps the invariant |
| TrafficSafety.PermitIsSafe | Concurrent Traffic Simulation/src/Intersection.cpp:132-138 | between blocking and popping the queue is not empty, its first promise is unfulfilled, and nobody is inside |
| TrafficRuns.MutualExclusion | Concurrent Traffic Simulation/src/Intersection.cpp:97-141 | under every interleaving an intersection is blocked exactly while its processor is between blocking and permitting or exactly one vehicle is inside, never both, and no pop meets an empty queue |
| TrafficRuns.NoEntryWhileInside | Concurrent Traffic Simulation/src/Intersection.cpp:97-141 | no step lets a further vehicle in while one is inside |
| TrafficRuns.UnblockedByLeaving | Concurrent Traffic Simulation/src/Intersection.cpp:97-109 | in every run an intersection that was blocked and is not any more has been left meanwhile by the vehicle inside it |
| TrafficRuns.OnePlace | Concurrent Traffic Simulation/src/Vehicle.cpp:77-123 | a vehicle stands in at most one queue, at one place, that of its destination, and is then inside no intersection |
| TrafficRuns.HeadsForAnEnd | Concurrent Traffic Simulation/src/Vehicle.cpp:111-118 | a vehicle's destination is an end of its street, except between the two assignments of a turn, where it is an end of the next street |
| TrafficRuns.TurnsToOtherEnd | Concurrent Traffic Simulation/src/Vehicle.cpp:111-117 | a turn takes the vehicle from one end of the chosen street to the other |
| TrafficRuns.WaitingIsQueued | Concurrent Traffic Simulation/src/Intersection.cpp:73-85 | a vehicle waiting on an unfulfilled promise has its place in its destination's queue with that promise; once it is fulfilled the vehicle is inside, alone |
| TrafficRuns.GrantsArePrefix | Concurrent Traffic Simulation/src/Intersection.cpp:13-42 | grants are a prefix of the arrivals and the vehicle and promise lists stay matched position by position |
| TrafficRuns.ServedInTurn | Concurrent Traffic Simulation/src/Intersection.cpp:126-140 | a vehicle with k ahead of it gets exactly the (k+1)-th later grant, and moves up one place with every grant before that |
| TrafficProgress.NextGrantReachable | Concurrent Traffic Simulation/src/Intersection.cpp:97-141 | from every kept state with a queue some continuation grants exactly its first vehicle |
| TrafficProgress.WaitingCanBeServed | Concurrent Traffic Simulation/src/Intersection.cpp:73-141 | without any fairness, from every kept state some continuation grants a waiting vehicle, as the (k+1)-th later grant when k are ahead of it |
| TrafficFairness.CanMove | Concurrent Traffic Simulation/src/Intersection.cpp:126-140 | a queue processor and a vehicle granted entry can always take a step, so fairness asks only that no thread is stopped for ever |
| TrafficFairness.OthersKeepLine | Concurrent Traffic Simulation/src/Intersection.cpp:73-141 | until the next grant no step of any thread costs a waiting vehicle its place or puts that grant off |
| TrafficFairness.AwaitedNearer | Concurrent Traffic Simulation/src/Intersection.cpp:97-141 | a step of the vehicle inside, or else of the processor, brings the next grant nearer |
| TrafficFairness.FairlyServed | Concurrent Traffic Simulation/src/Intersection.cpp:126-140 | in every fair endless run a vehicle with k ahead of it is granted entry after exactly k other grants |
| TrafficFairness.EveryWaitEnds | Concurrent Traffic Simulation/src/Intersection.cpp:73-95 | in every fair endless run every request for entry returns |

## Left out

- SearchDecides: for one given layout, a target that can be reached but has no sure trail may be found or lost, depending also on how the library sort orders equal sums (OrderDecides); which of the two is not characterised.
- RoutePlanner.AStarSearch: path nodes are recorded by number, where the code copies the node objects; the planner's percentage scaling of its input coordinates is not modelled.
- RouteModel.FindClosestNode: distances from the point are a parameter, and the initial largest float is taken to exceed all of them.
- SortByCompare: stands in for the library sort; the theorems about runs hold for every sorted arrangement, so they do not depend on it.
- Rounding: floating-point error of distances and sums in the search; all results are over exact reals.
- Tracker.TrackRec: the two vectors are value-typed fields of an object, so aliasing of the caller's vectors is not captured.
- RingModel.BuildRings: the raw pointer into the way table held across its growth is replaced by a lookup by number.
- Server.CheckUserInfo: a status other than 0 and 1 is treated like 1 (it does not occur in any reachable state); requests with an option other than 1 and 2, and failing table statements, are not modelled.
- Server.HandleSingleSocketCon: partial reads, socket calls and the text of SQL statements are not modelled; each read is one decoded message, and a new connection gets a descriptor not in use.
- Server.SignalHandler: a process that dies without the handler is not modelled.
- Intersection.AddVehicleToQueue: the mutex around its output and the traffic light are an arbitrary delay before the vehicle goes on; the fairness results take it that the delay ends, and say that a grant comes, not within which time.
- Intersection.ProcessVehicleQueue: a turn no other thread interrupts, as is VehicleThread.Turn; interruptions between their steps are those of the transition system.
- VehicleThread: the endless loop of `drive`, positions, speed and timing; the random draw is a parameter, and reads of the blocked flag are sequentially consistent.
- Reading map files, coordinate projection, rendering, both main programs, the chat client and the system monitor: input, output and user interface.
