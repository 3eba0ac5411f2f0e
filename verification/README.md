# Bot navigation: area routing, clustering, optimizing, entity links

A Dafny model of the navigation core of a game's bot library (the Area Awareness System, AAS), with proofs.

Bots move over *areas* joined by *reachabilities*. Areas are grouped into *clusters* separated by *portal* areas, so
that routes are searched inside one cluster at a time and joined at portals.

## What is modelled

* **Area routing.** `AreaSearch` specifies the search backwards from a goal, over unbounded times, on the graph that
  `RouteWorld` reads off the areas, reachabilities, travel flags and crossing times of one cluster. A crossing time
  depends on the way in and the way out, so the result is a fixed point along chosen ways out; it is a shortest path
  when crossing times do not depend on the way out. `AreaRouting` is the search itself, on arrays, with 16-bit sums and
  an indexed heap (`UpdateHeap`). `AreaRoutes` says what its result means for areas and reachabilities. `RouteSetup`
  builds the reversed index and the crossing times.
* **Caches.** `RoutingCache` has the two doubly linked lists a cache is on; `RouteCaches` the look-ups, eviction and
  invalidation. Its invariant is coherence: every cache held equals a fresh search under the present flags. `AreaFlags`
  proves what makes invalidation sufficient. `PortalSearch` is the search over portals, `RouteQuery` a whole query;
  `PortalTrips` and `RouteAnswers` say what their results mean, in terms of walks, portals and settings alone.
* **Clustering.** `ClusterNet` is the graph; `ClusterLayout`, `ClusterParts` and `ClusterFlood` are the steps and what
  they keep; `Clustering` is the code: flooding, the restarting scan, numbering, and the loop that takes portal marks
  away until all is consistent. `ClusterMeaning` says what it amounts to in terms of the graph alone: which areas share
  a cluster, and which marks are taken away. `ClusteredWorld` and `SettledWorld` tie it to what routing assumes, and
  `WorldSetup` goes all the way from a file to a world.
* **Optimizer.** `AasGeometry` says what a face looks like; `OptimizedTables`, `Optimizer` and `OptimizedFile` rebuild
  the tables with only the faces that are needed, and show that everything kept looks the same. `OptimizedUses` tells
  from the file which edges and vertexes that takes.
* **Entity links.** `AreaTree` has point location and the walk of a box down the BSP tree, `AreaLinks` the heap of links,
  `LinkWalk` and `EntityLinks` linking with a stack, `AasEntities` the updates of entities.
* **Two arithmetic cores.** `Crc` (with `CrcTable`) and `FreeFlight`.

Methods follow the code; the functions and predicates they are proved against say what they compute, and lemmas what
that means. A free area is one that is no portal. Numbers in the third column's formulas are travel times.

## Conditions

* The area and portal searches require that no sum of times reaches 65536. This is the flag `fits` of the specified
  search; `AreaSearch.SearchIsFixedPoint` says exactly when it holds, and `TimeBounds` and `PortalBounds` how the
  greatest times of a file tell, before any search, that it does.
* `RouteWorld.World.Valid` says what routing takes for granted of a loaded file. `SettledWorld.WorldIsValid` says exactly
  when clustering and set-up deliver it. Clustering does not see to it that a portal with a link into a cluster belongs
  to that cluster: `WorldSetup.ElsewhereWorld` is a file for which it does not, `SettledWorld.ClosedIff` the condition.
* Clustering is modelled for at most 32767 areas and without flooding through faces. None of its tables can then run
  full, and none of its error returns (a cluster touched by another, an area out of range, a portal area without portal) can be taken.
* The optimizer requires that faces, and areas, have slices of their own in the index tables, and that no entry is 0.
* A square root is a function passed in that is one. Real numbers stand for floating point.
* The BSP tree carries a rank that drops from a node to its children, as a witness that it has no cycle.

Where the code and its comments differ, the code is followed: the optimizer's vertex 0 counts as not stored, so the
first vertex can be stored twice, and the table allocated for them outgrown (`OptimizedFile.VertexesOutgrow`).

## Model

| member | source | states |
|---|---|---|
| UpdateHeap.SiftUpOrders | code/botlib/be_aas_route.c:1314-1333 | sifting up from a slot whose key has become too small restores heap order everywhere |
| UpdateHeap.SiftUpContents | code/botlib/be_aas_route.c:1314-1333 | sifting up neither loses, adds nor doubles a queued area |
| UpdateHeap.SiftDownOrders | code/botlib/be_aas_route.c:1342-1364 | sifting down from a slot whose key may be too large restores heap order everywhere |
| UpdateHeap.SiftDownContents | code/botlib/be_aas_route.c:1342-1364 | sifting down neither loses, adds nor doubles a queued area |
| UpdateHeap.RootIsLeast | code/botlib/be_aas_route.c:1414-1415 | in an ordered heap no queued area has a smaller travel time than the root |
| UpdateHeap.RaiseContents | code/botlib/be_aas_route.c:1464-1475 | queueing or raising an area adds that area and changes nothing else in the queued set |
| UpdateHeap.RaiseOrders | code/botlib/be_aas_route.c:1464-1475 | after an area's time has dropped, queueing it or sifting it up gives a heap ordered by the new times |
| UpdateHeap.PopContents | code/botlib/be_aas_route.c:1415-1422 | a pop takes exactly the root out of the queued set |
| UpdateHeap.PopOrders | code/botlib/be_aas_route.c:1415-1422 | after a pop the last entry sinks until the heap is ordered again |
| UpdateHeap.InverseGivesIndex | code/botlib/be_aas_route.c:1464-1467 | if updateheappos is the 1-based inverse of updateheap, it is non-zero exactly for queued areas and names their slot |
| UpdateHeap.InverseSwap | code/botlib/be_aas_route.c:1320-1331 | exchanging two entries and their positions keeps the two arrays inverse |
| UpdateHeap.InversePop | code/botlib/be_aas_route.c:1415-1420 | clearing the root's position and moving the last entry to the root keeps the two arrays inverse |
| UpdateHeap.InverseRoom | code/botlib/be_aas_route.c:888-892 | while an area is not queued the heap has a free slot, so it never outgrows its allocation |
| AreaSearch.SearchIsFixedPoint | code/botlib/be_aas_route.c:1412-1478 | the search ends; every labelled area other than the goal has the time its stored reachability offers, no link into a labelled area offers its source a better one, and no sum reached 65536 exactly when no offer of that fixed point does |
| TimeBounds.SearchFits | code/botlib/be_aas_route.c:1446-1449 | no sum of an area search reaches 65536 if the start time plus, for every area with reachabilities, the greatest crossing and the greatest link time stay below |
| AreaSearch.PopsInOrder | code/botlib/be_aas_route.c:1412-1422 | areas leave the heap in non-decreasing time, each labelled area exactly once and at its final time, at most as many as there are areas |
| AreaSearch.FollowingReachesGoal | code/botlib/be_aas_route.c:1448-1463 | following stored exits from a labelled node ends at the goal, passes no node twice and costs its label less the start time |
| AreaSearch.FollowingIsUnique | code/botlib/be_aas_route.c:1448-1463 | there is no other way of following the stored exits |
| AreaSearch.ReachedIffRoute | code/botlib/be_aas_route.c:1412-1478 | a node is labelled exactly when some route of arcs leads from it to the goal |
| AreaSearch.NoRouteIsFaster | code/botlib/be_aas_route.c:1448-1463 | when crossing times do not depend on the exit, no route beats a label |
| AreaSearch.SearchIsFastest | code/botlib/be_aas_route.c:1412-1478 | then a label is the time of a fastest route |
| RouteWorld.World.AreaOfNumber | code/botlib/be_aas_route.c:109-128 | the number of a member of a cluster names that area and no other |
| RouteWorld.World.UsableSource | code/botlib/be_aas_route.c:1437-1445 | the source of a usable link into a member is itself a member, the one its number names |
| RouteWorld.World.GraphIsValid | code/botlib/be_aas_route.c:1427-1450 | the usable links of a cluster form a graph in which every arc has its crossing times |
| RouteWorld.World.ArcIsReachability | code/botlib/be_aas_route.c:1429-1457 | an arc of that graph is a reachability the travel flags permit, into an area that is enabled and permitted |
| RouteWorld.World.GraphExitsAreUnique | code/botlib/be_aas_route.c:1457 | an area and one of its reachabilities name one arc |
| AreaRouting.AreaRouter.constructor | code/botlib/be_aas_route.c:870-898 | the buffers of the search have room for every cluster, and no area is queued |
| AreaRouting.AreaRouter.SiftUp | code/botlib/be_aas_route.c:1314-1333 | the arrays hold what the specified upward sift leaves, and stay inverse |
| AreaRouting.AreaRouter.SiftDown | code/botlib/be_aas_route.c:1342-1364 | the arrays hold what the specified downward sift leaves, and stay inverse |
| AreaRouting.AreaRouter.PopRoot | code/botlib/be_aas_route.c:1415-1422 | the arrays hold the heap without its root |
| AreaRouting.AreaRouter.Enqueue | code/botlib/be_aas_route.c:1464-1475 | the arrays hold the heap with the area queued or raised |
| AreaRouting.AreaRouter.Offer | code/botlib/be_aas_route.c:1429-1476 | one usable link: times, exits, heap and pending updates are those after relaxing its arc |
| AreaRouting.AreaRouter.ScanLinks | code/botlib/be_aas_route.c:1427-1477 | all links into the current area: the same for the relaxation of all its arcs, skipped links being no arcs |
| AreaRouting.AreaRouter.UpdateAreaRoutingCache | code/botlib/be_aas_route.c:1375-1479 | the cache's times and exits are those of the specified search over unbounded times, and every heap position is 0 again on return |
| AreaRoutes.StoredReachability | code/botlib/be_aas_route.c:1448-1463 | T(a) = T(b) + the time across b from this way in to b's own stored way out (0 for the goal) + the reachability's time, b being the area a's stored reachability leads to |
| AreaRoutes.StoredWalk | code/botlib/be_aas_route.c:1448-1463 | following stored reachabilities from a reached area ends at the goal, enters no area twice and takes exactly its time less the start time |
| AreaRoutes.ReachedIffWalk | code/botlib/be_aas_route.c:1412-1478 | an area has a time exactly when a walk of allowed reachabilities inside the cluster leads to the goal |
| AreaRoutes.StoredWalkIsFastest | code/botlib/be_aas_route.c:1412-1478 | when no crossing time depends on the way out, that time is the least over all such walks |
| AreaRoutes.WalkIsRoute | code/botlib/be_aas_route.c:1427-1450 | every walk over reachabilities is a route of the search graph, of the same time |
| AreaRoutes.ArcIsAllowed | code/botlib/be_aas_route.c:1427-1450 | every arc of the search graph is a reachability that may be used with the travel flags, bit for bit, into an enabled area that may be entered with them, with its travel time |
| AreaRoutes.TypeIsPermitted | code/botlib/be_aas_route.c:169-182 | the flags of a travel type let through exactly those who may use it: with all flags the table asks for, and not kept out for their team; of a type the table does not know, only those with the flag for invalid types |
| RouteSetup.CreateReversedReachability | code/botlib/be_aas_route.c:418-477 | every area's list is the specified list of links into it, latest first |
| RouteSetup.LinksAre | code/botlib/be_aas_route.c:418-477 | that list holds exactly the first 128 reachabilities of every area that lead there |
| RouteSetup.LinksOnce | code/botlib/be_aas_route.c:418-477 | and none of them twice |
| RouteSetup.TravelTimeIsPositive | code/botlib/be_aas_route.c:484-503 | a crossing time is the scaled distance without its fraction, at least 1; in 16 bits it is 0 exactly when that distance is a positive multiple of 65536 |
| RouteSetup.EntryIsDistance | code/botlib/be_aas_route.c:484-503 | an entry of the table is the distance in space from where the link arrives to where the reachability starts, times 1.3 crouching, 1 swimming, 0.33 walking, without its fraction, in 16 bits, and 1 if that is below 1 |
| RouteSetup.CalculateAreaTravelTimes | code/botlib/be_aas_route.c:510-572 | a row for every way out of an area, an entry for every way in, from where the link arrives to where the reachability starts; what an entry is says RouteSetup.EntryIsDistance |
| RouteSetup.PortalMaxTravelTime | code/botlib/be_aas_route.c:579-606 | the greatest time for crossing the portal area, 0 only if there is none greater |
| RouteSetup.SetUpLinks | code/botlib/be_aas_route.c:418-477 | the index is what the searches take it for: every link a reachability into the area, each once, none of the first 128 missing |
| RouteSetup.SetUpCrossings | code/botlib/be_aas_route.c:510-572 | the tables cover every way through an area, and are usable exactly if no entry is 0 |
| CacheTimeList.TimeList.UnlinkCache | code/botlib/be_aas_route.c:199-207 | the time list loses exactly this cache and stays doubly linked |
| CacheTimeList.TimeList.LinkCache | code/botlib/be_aas_route.c:214-228 | the cache becomes the newest of the time list, which stays doubly linked |
| CacheBuckets.BucketTable.Find | code/botlib/be_aas_route.c:1494-1499 | the cache of the bucket for these travel flags, and none only if there is none |
| CacheBuckets.BucketTable.Push | code/botlib/be_aas_route.c:1510-1514 | a new cache becomes the head of its bucket, whose list stays doubly linked; other buckets are untouched |
| CacheBuckets.BucketTable.Unlink | code/botlib/be_aas_route.c:723-731 | a cache leaves its bucket, whose list stays doubly linked; other buckets are untouched |
| CacheBuckets.BucketTable.Clear | code/botlib/be_aas_route.c:257-264 | a bucket is emptied, other buckets are untouched |
| RouteCaches.Routing.constructor | code/botlib/be_aas_route.c:803-863 | empty buckets for every area of every cluster and every portal goal; all invariants of the caches hold |
| RouteCaches.Routing.NewCache | code/botlib/be_aas_route.c:747-764 | a cleared cache with its size accounted for, in its bucket |
| RouteCaches.Routing.GetAreaRoutingCache | code/botlib/be_aas_route.c:1486-1525 | the cache for this area, cluster and flags, held or newly searched; it moves to the newest end, the others keep their order; every cache held still equals a fresh search |
| RouteCaches.Routing.UpdatePortalRoutingCache | code/botlib/be_aas_route.c:1532-1623 | the cache's times are those of the specified portal search, whatever area caches it uses are held, evicted or made on the way |
| RouteCaches.Routing.GetPortalRoutingCache | code/botlib/be_aas_route.c:1630-1665 | the same for a portal cache |
| RouteCaches.Routing.Free | code/botlib/be_aas_route.c:235-240 | a cache leaves both lists and its size is given back |
| RouteCaches.Routing.FreeOldestCache | code/botlib/be_aas_route.c:708-740 | frees the least recently used cache that is not an area cache towards a portal, and only that; nothing is freed only if there is none |
| RouteCaches.EvictableIs | code/botlib/be_aas_route.c:718-722 | a cache may be evicted exactly if it is no area cache towards the area of a portal |
| RouteCaches.Routing.RemoveRoutingCacheInCluster | code/botlib/be_aas_route.c:247-265 | exactly the area caches of the cluster are freed |
| RouteCaches.Routing.RemoveRoutingCacheUsingArea | code/botlib/be_aas_route.c:272-300 | exactly the area caches of the area's cluster, or of a portal's two clusters, and all portal caches are freed |
| RouteCaches.Routing.EnableRoutingArea | code/botlib/be_aas_route.c:307-334 | the old state is returned, the disabled flag set or cleared, nothing else of the world changed, and afterwards every cache still held equals a fresh search under the new flags |
| RouteCaches.StillCorrect | code/botlib/be_aas_route.c:272-300 | a cache that is not removed equals a fresh search under the changed flags too |
| RouteCaches.FlagIsSet | code/botlib/be_aas_route.c:316-326 | clearing or setting the flag does just that |
| AreaFlags.SameSearch | code/botlib/be_aas_route.c:1432-1442 | the search of a cluster does not depend on the flags of an area that is no member of it |
| AreaFlags.StillValid | code/botlib/be_aas_route.c:307-334 | changing an area's flags leaves a sound world sound |
| PortalSearch.PortalTimesAreChains | code/botlib/be_aas_route.c:1532-1623 | every non-zero portal time is the exact time of a chain of portals to the goal, counting the longest crossing of every portal in between (the goal's own portal has the start time), and no portal gains by being put in front of such a chain |
| PortalTrips.PortalTimeIsTrip | code/botlib/be_aas_route.c:1532-1623 | a portal with a time, other than the goal's own, has that of a trip: walks inside clusters, from portal to portal, each portal left on the other side than it is entered; no portal on the side where this one would be entered waits longer than by way of it |
| PortalTrips.PortalsOfGoal | code/botlib/be_aas_route.c:1543-1552 | every portal of the goal's cluster from which a walk leads to the goal has a time, none longer than that of the search towards the goal and 1 |
| PortalTrips.GoalPortalIsThere | code/botlib/be_aas_route.c:1545-1549 | a goal that is a portal has the start time |
| PortalSearch.VisitChanges | code/botlib/be_aas_route.c:1590-1618 | a portal is queued only when its time strictly drops or is its first; nothing else changes |
| PortalSearch.RoundDrops | code/botlib/be_aas_route.c:1551-1622 | a round either lowers some portal's time or leaves the queue shorter, so the search ends |
| PortalSearch.PortalIsMember | code/botlib/be_aas_route.c:1601-1607 | a portal belongs to both its clusters |
| PortalBounds.PortalSearchFits | code/botlib/be_aas_route.c:1588-1607 | no sum of the portal search reaches 65536 if, for every portal and once more, the longest way inside a cluster and the longest crossing of a portal stay below |
| PortalBounds.QueriesFit | code/botlib/be_aas_route.c:1672-1851 | so the greatest times of the file tell that no sum behind any query reaches 65536 |
| PortalBounds.ChoicesFit | code/botlib/be_aas_route.c:1835-1842 | nor any sum by which portals are compared |
| RouteQuery.AreaRouteToGoalArea | code/botlib/be_aas_route.c:1672-1851 | the answer is a function of the world and the query alone, whatever is cached or evicted; all cache invariants hold afterwards |
| RouteQuery.InsideRouteIsWalk | code/botlib/be_aas_route.c:1754-1779 | inside a shared cluster there is an answer exactly if a walk leads to the goal, and then it is the time of a walk that begins with the reachability returned |
| RouteQuery.BestPortalIsChosen | code/botlib/be_aas_route.c:1801-1850 | the scan over the portals keeps the first of those with the least total time, and none exactly when no portal will do |
| RouteQuery.AnswerIsFirstBest | code/botlib/be_aas_route.c:1801-1850 | without a route inside a shared cluster the answer goes through the first of the fastest portals of the area's cluster; there is none exactly if no portal will do |
| RouteAnswers.AnswerIsWalk | code/botlib/be_aas_route.c:1710-1779 | if the two areas share a cluster and a walk inside it leads to the goal, the answer is the time of such a walk, plus the way to its start, with its first reachability; flags and clusters are stated by the areas' settings |
| RouteAnswers.AnswerGoesOut | code/botlib/be_aas_route.c:1780-1851 | if there is no such walk, the answer goes through the first of the fastest portals of the area's own cluster, there being none exactly if no portal will do; from a portal area it is that portal's time; the goal counts as in its cluster, a portal as in its front cluster |
| RouteAnswers.AnswerWithoutSearch | code/botlib/be_aas_route.c:1683-1708 | no route for numbers that are no areas and for areas without reachabilities; time 1 and reachability 0 for an area to itself |
| RouteQuery.ConsiderCandidate | code/botlib/be_aas_route.c:1806-1844 | a portal replaces the best so far exactly if it can be used and is the first or strictly better |
| Clustering.ClusterBuilder.RemoveClusterAreas | code/botlib/be_aas_cluster.c:64-72 | no area has a cluster, and nothing else has changed |
| Clustering.ClusterBuilder.PortalOfArea | code/botlib/be_aas_cluster.c:126-136 | the portal record of a portal area; there always is one |
| Clustering.ClusterBuilder.AddPortalCluster | code/botlib/be_aas_cluster.c:141-169 | the portal's next cluster is set, its area marked, and the portal put at the end of the cluster's slice; the index never runs full |
| Clustering.ClusterBuilder.UpdatePortal | code/botlib/be_aas_cluster.c:119-171 | the cluster becomes one of the portal's two, or the portal already has two others and loses its mark |
| Clustering.ClusterBuilder.FloodClusterAreas | code/botlib/be_aas_cluster.c:178-243 | everything reached through free areas joins the cluster, every portal reached records it; or a portal touched by three clusters has lost its mark; an area of another cluster is never met |
| Clustering.ClusterBuilder.ReachesCluster | code/botlib/be_aas_cluster.c:267-279 | does a reachability of the area lead to an area that has a cluster and is no portal |
| Clustering.ClusterBuilder.FloodClusterAreasUsingReachabilities | code/botlib/be_aas_cluster.c:251-282 | the scan and its restarts end, and then no free area without cluster reaches an area with one |
| Clustering.ClusterBuilder.NumberAreas | code/botlib/be_aas_cluster.c:324-335 | the areas of the cluster with, or without, reachabilities get the next numbers, each once |
| Clustering.ClusterBuilder.NumberPortals | code/botlib/be_aas_cluster.c:337-353 | the same for the portals of the cluster, on the side that faces it |
| Clustering.ClusterBuilder.NumberClusterAreas | code/botlib/be_aas_cluster.c:316-383 | the cluster's areas and portals are numbered 0 to numareas-1 without repetition, those with reachabilities first; nothing else changes |
| Clustering.ClusterBuilder.FindCluster | code/botlib/be_aas_cluster.c:413-429 | one more cluster, complete and numbered, the earlier ones as they were; or a portal that separates three parts has lost its mark |
| Clustering.ClusterBuilder.FindClusters | code/botlib/be_aas_cluster.c:390-433 | all clusters are found, or exactly one portal area, one that separates three parts, has lost its mark |
| Clustering.ClusterBuilder.CreatePortals | code/botlib/be_aas_cluster.c:440-462 | a portal record for every portal area in order, without clusters; the table never runs full |
| Clustering.ClusterBuilder.TestPortals | code/botlib/be_aas_cluster.c:1373-1395 | every portal has two clusters, or one that lacks one has lost its mark |
| Clustering.ClusterBuilder.Attempt | code/botlib/be_aas_cluster.c:1498-1517 | one round of the retry loop either settles everything or takes the mark from one portal that separates three parts or none |
| Clustering.ClusterBuilder.InitClustering | code/botlib/be_aas_cluster.c:1478-1517 | the retry loop ends; every mark removed was superfluous when its turn came, nothing else of the areas has changed, and clusters and portals are settled |
| ClusterMeaning.SameClusterIffJoined | code/botlib/be_aas_cluster.c:178-282 | two areas with a cluster share it exactly when a chain of reachabilities, taken in either direction, joins them through free areas |
| ClusterMeaning.WithoutCluster | code/botlib/be_aas_cluster.c:390-433 | a free area is left without cluster exactly if it has no reachabilities and no free area reaches it |
| ClusterMeaning.PortalClusters | code/botlib/be_aas_cluster.c:119-171 | a portal has exactly the clusters with an area that reaches it |
| ClusterMeaning.PortalIsIdleOrDivides | code/botlib/be_aas_cluster.c:1373-1395 | a portal that lacks a cluster separates nothing, one with two lies between exactly two parts |
| ClusterMeaning.NotCrowded | code/botlib/be_aas_cluster.c:193-200 | when the clusters are found no portal separates three parts |
| ClusterMeaning.CrossedIsCrowded | code/botlib/be_aas_cluster.c:152-157 | a portal met by a third cluster is reached from three areas no two of which are joined |
| ClusterMeaning.PortalsDivide | code/botlib/be_aas_cluster.c:1498-1517 | when the loop ends every portal area left lies between exactly two parts |
| ClusterMeaning.EndsFlooding | code/botlib/be_aas_cluster.c:413-429 | finding one more cluster keeps all that was established for the earlier ones |
| ClusterMeaning.OneMoreRemoved | code/botlib/be_aas_cluster.c:1504-1514 | every failed round leaves fewer portal areas |
| ClusterParts.AllNumbered | code/botlib/be_aas_cluster.c:316-383 | once every member is listed the numbering is a bijection with the reachable members first |
| ClusterParts.FinishedKept | code/botlib/be_aas_cluster.c:413-429 | later clusters leave the areas, portals, slice and numbers of an earlier one alone |
| ClusterLayout.SidesBound | code/botlib/be_aas_cluster.c:158-170 | the portal index holds a portal twice at most |
| ClusterLayout.GrownThrough | code/botlib/be_aas_cluster.c:178-243 | what flooding leaves alone stays alone over any number of steps |
| ClusteredWorld.PortalsAreOk | code/botlib/be_aas_cluster.c:1498-1517 | portal areas and portal records refer to each other, and every portal joins two different clusters, as routing needs it |
| ClusteredWorld.NumbersAreOk | code/botlib/be_aas_cluster.c:316-383 | the numbers are those routing needs: injective on a cluster, below numreachabilityareas exactly for members with reachabilities |
| ClusteredWorld.SliceIsOk | code/botlib/be_aas_cluster.c:158-170 | the slice of the portal index of a cluster lists exactly its portals |
| ClusteredWorld.ReachabilitiesHaveCluster | code/botlib/be_aas_cluster.c:396-410 | every area with reachabilities is in a cluster or is a portal |
| ClusteredWorld.PortalMayLeadElsewhere | code/botlib/be_aas_cluster.c:119-171 | a net of areas whose one portal area divides two parts and leads to a third that does not reach it |
| SettledWorld.LeadsHomeIff | code/botlib/be_aas_cluster.c:119-171 | a portal area belongs to all the clusters of an area it leads to exactly if the part that area is in, or all parts that reach it, reach the portal area too |
| SettledWorld.ClosedIff | code/botlib/be_aas_route.c:1440-1445 | every portal with a link into a cluster belongs to it exactly if every portal area leads home in this sense by each of its first 128 reachabilities |
| SettledWorld.WorldIsValid | code/botlib/be_aas_cluster.c:1478-1517 | a world set up for the settled clusters is sound for routing exactly if portal areas lead home and no crossing time has been cut off to 0 |
| WorldSetup.SetUpWorld | code/botlib/be_aas_route.c:1235-1252 | clustering followed by the set-up of routing: which marks are removed and why, what the tables hold, and exactly when the world that results is sound |
| WorldSetup.PortalMaxTravelTimes | code/botlib/be_aas_route.c:613-626 | for every portal the longest time through its area |
| WorldSetup.SmallWorld | code/botlib/be_aas_route.c:1235-1252 | a file for which a sound world results |
| WorldSetup.ElsewhereWorld | code/botlib/be_aas_cluster.c:119-171 | a file for which clustering settles and the world is not sound: a portal with a link into a cluster does not belong to it |
| Optimizer.Optimized.OptimizeVertex | code/botlib/be_aas_optimize.c:108-120 | a vertex with a number other than 0 keeps it and nothing is stored; any other, so also the one stored as number 0, is stored with the next number |
| Optimizer.Optimized.StoreEdge | code/botlib/be_aas_optimize.c:104-124 | the edge is stored with both end points in order, and counts among the edges come across |
| Optimizer.Optimized.OptimizeEdge | code/botlib/be_aas_optimize.c:90-128 | the edge returned has the same end points in the same order, and the sign of the edge asked for; an edge come across before is not stored again |
| Optimizer.Optimized.OptimizeOutline | code/botlib/be_aas_optimize.c:163-173 | the edges of a face are entered in order, each with the same end points, and come across in that order |
| Optimizer.Optimized.StoreFace | code/botlib/be_aas_optimize.c:157-180 | a face stored for the first time looks as in the file, with an outline of its own |
| Optimizer.Optimized.OptimizeFace | code/botlib/be_aas_optimize.c:147-185 | a kept face resolves to one with the same plane, flags, areas and outline, on the same side; any other gives 0 and changes nothing |
| Optimizer.Optimized.OptimizeArea | code/botlib/be_aas_optimize.c:192-214 | the area's list is its old list without the faces that are not kept, in the same order and on the same sides |
| Optimizer.Optimized.MarkSteerFaces | code/botlib/be_aas_optimize.c:252-263 | exactly the faces some grapple reachability is anchored at are marked |
| Optimizer.Optimized.RemapReachabilities | code/botlib/be_aas_optimize.c:319-348 | face and edge numbers are renumbered with their sign, but for the reachabilities that use them otherwise |
| Optimizer.Optimize | code/botlib/be_aas_optimize.c:308-353 | the new tables and reachabilities mean what the old ones did: every area has its kept faces in their order, on their sides, looking as before; every reachability names the face and the edge it named, or 0 exactly if no kept face that some area has is that face or has that edge; every vertex needed is stored once, but the first come across twice exactly if it is come across again |
| Optimizer.OptimizeTriangle | code/botlib/be_aas_optimize.c:221-240 | an example of a file with 3 vertexes, the allocation, of which 4 are stored |
| OptimizedFile.Preserves | code/botlib/be_aas_optimize.c:308-348 | numbers aside, what the optimizer leaves is the old geometry without the faces that are neither ladders nor anchors |
| OptimizedUses.UsesAre | code/botlib/be_aas_optimize.c:163-208 | the edges the optimizer comes across are exactly those of the kept faces some area has |
| OptimizedUses.EdgeUsesOk | code/botlib/be_aas_optimize.c:110-124 | storing an edge: exactly the edges come across have a number; of the vertexes met, exactly those met after the first vertex, itself perhaps among them, have a number other than 0 |
| OptimizedUses.VertexTotal | code/botlib/be_aas_optimize.c:110-124 | the number of vertexes stored, read off the file: the end points of the edges come across, and one more exactly if the first end of the first edge is also its second end or an end of another of these edges |
| OptimizedFile.FaceSurvives | code/botlib/be_aas_optimize.c:135-185 | a face is in the new file exactly when it is kept and some area has it, and then looks the same |
| OptimizedFile.NeededAreKept | code/botlib/be_aas_optimize.c:135-140 | the faces kept are exactly those flagged as ladders and those a grapple reachability is anchored at |
| OptimizedFile.EdgeSurvives | code/botlib/be_aas_optimize.c:90-128 | an edge is in the new file exactly when a kept face that some area has uses it, and then has the same end points |
| OptimizedFile.GrappleKeepsPlane | code/botlib/be_aas_sample.c:1053-1060 | a grapple reachability whose anchor face bounds some area keeps that face's plane and side, and everything but the face number; otherwise the number becomes 0 |
| OptimizedFile.ReachabilityKeepsFace | code/botlib/be_aas_optimize.c:343-348 | any other renumbered reachability: its face survives exactly if kept and bounded, looking the same on the same side; its edge survives exactly if a kept, bounded face uses it, with the same end points in order |
| OptimizedFile.CodedStay | code/botlib/be_aas_optimize.c:321-328 | elevator, jump pad and func_bobbing records are untouched |
| OptimizedFile.SizesBounded | code/botlib/be_aas_optimize.c:221-240 | no table outgrows that of the file, but for the vertexes by one at most |
| OptimizedFile.VertexCount | code/botlib/be_aas_optimize.c:110-119 | the first vertex come across is stored twice exactly if it is come across again, as the file tells; no other is stored twice |
| OptimizedFile.VertexesOutgrow | code/botlib/be_aas_optimize.c:224 | the vertexes outgrow their allocation exactly if the first vertex come across is come across again and every vertex of the file is an end point of an edge of a kept, bounded face |
| OptimizedFile.TriangleOutgrows | code/botlib/be_aas_optimize.c:110-119 | that happens to a file of one area with one ladder, a triangle |
| AreaTree.PointAreaNum | code/botlib/be_aas_sample.c:212-258 | the walk down the tree ends at the specified area of the point |
| AreaTree.PointIsSeparated | code/botlib/be_aas_sample.c:212-258 | the area found is at the end of the only way down that is in front of each plane exactly where normal times point exceeds the plane's distance |
| AreaTree.CornersAreExtreme | code/botlib/be_aas_sample.c:1128-1147 | of all points of the box the two corners are the farthest in front of and behind the plane |
| AreaTree.SidesAreExact | code/botlib/be_aas_sample.c:1128-1154 | the sides returned are exactly those with points of the box, the plane counting as in front |
| AreaTree.AreasAreReached | code/botlib/be_aas_sample.c:1224-1317 | the areas of a box are those at the ends of the ways down the tree the walk with the box goes |
| AreaTree.WayIsTaken | code/botlib/be_aas_sample.c:1224-1317 | for a point of the box, edges and corners included, the walk with the box goes the way of point location exactly if no plane on it runs through the point with no point of the box behind it |
| AreaTree.PointsAreCovered | code/botlib/be_aas_sample.c:1224-1317 | then the area of the point is 0 or one of the areas of the box; an area with one leaf is one of them only then |
| AreaTree.InnerIsUntouched | code/botlib/be_aas_sample.c:1150-1151 | for a point strictly inside the box there is no such plane |
| AreaTree.BoundaryIsNotCovered | code/botlib/be_aas_sample.c:1150-1151 | an example of a point of the box on such a plane: its area is not among those of the box |
| LinkWalk.DescendedKeeps | code/botlib/be_aas_sample.c:1285-1315 | descending leaves the areas to be found and their order, ends, and keeps the stack no longer than the tree is deep |
| LinkWalk.OrderIsAreas | code/botlib/be_aas_sample.c:1285-1315 | the areas in the order of the walk are those of the box |
| AreaLinks.Conserved | code/botlib/be_aas_sample.c:145-181 | every link is free, or on its area's and its entity's list; free and used links make up the heap |
| AreaLinks.LinkedValid | code/botlib/be_aas_sample.c:1266-1283 | linking keeps all lists doubly linked, disjoint and without a second link between an entity and an area |
| AreaLinks.UnlinkedValid | code/botlib/be_aas_sample.c:1199-1206 | so does unlinking an entity's first link |
| EntityLinks.AreaLinkHeap.constructor | code/botlib/be_aas_sample.c:95-126 | all links are free and counted |
| EntityLinks.AreaLinkHeap.AllocAASLink | code/botlib/be_aas_sample.c:145-164 | the first free link, or none exactly if none is left |
| EntityLinks.AreaLinkHeap.DeAllocAASLink | code/botlib/be_aas_sample.c:171-180 | the link becomes the first free one |
| EntityLinks.AreaLinkHeap.UnlinkFromAreas | code/botlib/be_aas_sample.c:1193-1208 | the entity is on no area's list, its links are free again, other entities are linked as before |
| EntityLinks.AreaLinkHeap.FindLink | code/botlib/be_aas_sample.c:1257-1262 | a link of the entity to the area, none exactly if there is none |
| EntityLinks.AreaLinkHeap.AddLink | code/botlib/be_aas_sample.c:1264-1283 | the link is at the head of both lists, or nothing has changed and none is left |
| EntityLinks.AreaLinkHeap.AASLinkEntity | code/botlib/be_aas_sample.c:1224-1317 | the entity is linked to the first areas of its box the walk comes to, as many as it has links: to all of them, or as many as there were free links, unless the tree is so deep that the stack can run full; others keep their links |
| EntityLinks.AreaLinkHeap.BBoxAreas | code/botlib/be_aas_sample.c:1341-1357 | different areas of the box, as many as asked for or all, and the heap is as before |
| EntityLinks.LinkedAreasCover | code/botlib/be_aas_sample.c:1224-1317 | every point of the box, strictly inside it or not, is in solid or in an area the entity is linked to unless a plane on its way touches the box there; in an area with one leaf exactly the points without such a plane are |
| AasEntities.EntityTable.Relink | code/botlib/be_aas_entity.c:145-156 | the entity is taken out of its areas and linked to those of the box around it in which a standing player would touch it: wherever he would, and no plane on the way to that place touches the box, he is in solid or in an area the entity is linked to |
| AasEntities.EntityTable.UpdateEntity | code/botlib/be_aas_entity.c:63-164 | the record is brought up to date, the entity relinked exactly if its origin, box or angles have changed (or in the first frame, or never for the world); no other entity is touched and no link lost |
| AasEntities.EntityTable.InvalidateEntities | code/botlib/be_aas_entity.c:341-349 | all entities are marked as not updated |
| AasEntities.EntityTable.UnlinkInvalidEntities | code/botlib/be_aas_entity.c:356-372 | exactly the entities not updated are in no area; the others are linked as before |
| AasEntities.BoxStays | code/botlib/be_aas_entity.c:107-143 | an update that does not relink leaves the box where it was, exactly unless the box of a model has changed without its angles |
| AasEntities.LinkBoxIs | code/botlib/be_aas_sample.c:1325-1335 | the box an entity is linked by holds exactly the positions at which the box of a standing player, from (-15,-15,-24) to (15,15,32) around him, has a point in common with the entity's |
| AasEntities.RelinksIfChanged | code/botlib/be_aas_entity.c:103-143 | an entity is relinked exactly in the first frame, or if the update has moved it, turned a model, or changed a box |
| CrcTable.EntryIsRemainder | code/botlib/l_crc.c:44-85 | entry n of the table is n times x^16 modulo x^16+x^12+x^5+1 |
| CrcTable.RemainderOfByte | code/botlib/l_crc.c:103-106 | dividing over the bits of a byte is one multiplication by x^8 and one addition |
| CrcTable.TimesX8Injective | code/botlib/l_crc.c:103-106 | multiplication by x^8 loses nothing |
| Crc.ByteIsTimesX8 | code/botlib/l_crc.c:103-106 | one table step is eight steps of the division, the byte entering at the top |
| Crc.ProcessString | code/botlib/l_crc.c:123-137 | the loop computes the specified checksum state |
| Crc.ChecksumIsRemainder | code/botlib/l_crc.c:123-137 | the checksum is the remainder of the string times x^16, plus that of 0xffff times x to the number of its bits |
| Crc.AdjacentBytesDetected | code/botlib/l_crc.c:123-137 | two strings of equal length that differ only within two adjacent bytes never have the same checksum |
| FreeFlight.Predict | code/botlib/be_aas_move.c:539-555 | after any number of free frames the bot is exactly on the parabola from 0.25 above its start, with the velocity of that time; a frame time of 0 or less counts as 0.1 |
| FreeFlight.HorizontalVelocityForJump | code/botlib/be_aas_move.c:1059-1098 | unless a start downwards is to lead up, it succeeds exactly when some speed up to the greatest brings the bot to the end point coming down, and returns that speed; for such a start it reports success, with a speed that is not positive, though no speed does; failing, it returns the greatest speed |
| FreeFlight.TimeSign | code/botlib/be_aas_move.c:1087-1091 | the time computed is negative exactly for a start downwards to an end above |
| FreeFlight.FallUpwards | code/botlib/be_aas_move.c:1087-1097 | an example of that success |
| FreeFlight.FallTime | code/botlib/be_aas_move.c:1074-1086 | coming down, the bot is at the end's height at t + zvel/gravity and at no other time |
| FreeFlight.Speed | code/botlib/be_aas_move.c:1087-1096 | the speed computed is the only one that covers the distance in that time |

## Left out

- AreaRouting.AreaRouter.UpdateAreaRoutingCache: does not say what a search with a sum of 65536 or more would leave; the sums are 16 bits wide and would wrap around. `TimeBounds.SearchFits` tells from the greatest times that there is none.
- RouteCaches.Routing.UpdatePortalRoutingCache: nor what a portal search with such a sum would leave; `PortalBounds.PortalSearchFits` tells that there is none.
- PortalSearch.PortalTimesAreChains: says that times are those of real chains and that none gains by one more portal in front, not that they are least over all chains: a portal queued again forgets which side it was entered from.
- RouteQuery.AreaRouteToGoalArea: the way from portal to portal is as the code chooses it; a shorter way through another cluster is not looked for, and a goal that is a portal counts as in its front cluster.
- RouteQuery.AreaRouteToGoalArea: a route that starts at a portal returns the portal's first reachability, since the portal search never stores any; what the query then returns is modelled, not justified.
- RouteCaches.Routing.GetPortalRoutingCache: for a new portal cache the order of the other caches is not stated, since the search for it uses area caches on the way.
- EntityLinks.AreaLinkHeap.AASLinkEntity: when the stack runs full it does not say how many areas the entity is linked to, only that they are the first of the walk.
- FreeFlight.Predict: only frames in which nothing is touched; ground, water, commands, collisions and stop events of the prediction are not part of this model.
- The buckets of area caches and of portal caches are one map from bucket to list; the portal search's queue is a sequence, not links between its updates.
- The tables of clustering, the optimizer and the link heap are sequences that a write replaces, links named by their numbers on the heap; the routing buffers are arrays and the routing caches objects.
- Optimized edges and faces are appended when complete, where the code fills in the next entry in place.
- Time stamps of caches, the flags that say whether anything is loaded, the limit of routing updates per frame (commented out in the code).
- Route cache files: caches read back are not on the time list.
- `AAS_PredictRoute`, `AAS_RandomGoalArea`, `AAS_NearestHideArea`, traces, and building reachabilities and possible portals.
- Links of entities to the leaves of the map's own BSP tree.
- `CRC_ContinueProcessString`: its index depends on whether characters are signed; for bytes below 128 it is `Crc.ProcessByte`.
- Memory, files, network, console variables, logging, debug drawing, assembly files, and the rest of the bot library.
