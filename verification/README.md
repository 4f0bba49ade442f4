# s3d in Dafny

A model of the algorithmic parts of the s3d 3d network display server, its client
libraries and the meshs3d viewer, with proofs about them. `dafny verify dfyconfig.toml`
checks everything.

Code that updates fields or arrays in place is a class or a method over arrays here, proved
against functions on values; the theorems are lemmas about those functions, and invariants
(`Valid()`) that every operation keeps. Coordinates, angles and matrix entries are exact
reals.

## What is modelled

**Polygon triangulation** (`libs3d/sei_*.c`).

- *Contours* builds the segment table; *Ordering* draws the insertion order.
- *Tolerance* has the comparisons and what they mean in coordinates. *QueryStructure*, *QuerySteps*, *Merging*, *Insertion* and *Threading* say what the point
  location structure is, what splits and merges do to it and to every search, and why the
  cached entry points stay good. *Tables* has every operation as a function of the tables
  and says when a run fits, *Separation* what it means that a segment is in, *Additions*
  what an insertion does to the searches. *Trapezoidation* is the class that works on the
  tables; its `ConstructTrapezoids` is a whole run. *Triangulation* puts contours, ordering and
  trapezoidation together and hands over to the splitter.
- *Rings*, *Polygons*, *Diagonals* and *Drawings* treat the circular lists and what one
  diagonal or a series of them does to them, *Traversal* the decisions of the walk over the
  trapezoids and *Walks* the walk as a whole, *GreedyCut* and *Winding* the corner
  cutter, *Cutting* and *Coverage* the final pass. *Splitter* is the class.

**The server's scene graph** (`server/object.c`): *Scene* (paths and cached matrices),
*SceneLinks* (link and unlink), *SceneUpdate* (the update's recursion), *SceneSlots* (slots
come and go), *SceneServer* (the class). A matrix is the word of OpenGL calls that made it,
so what is proved of it holds for any meaning of the calls.

**The hash table and the mesh viewer** (`libs3d/hash.c`, `apps/meshs3d`): *Chains*,
*HashTable*, *Hash* (the class), *NodeIds* (addresses, their order, the unordered pairs),
*Mesh* (announcements and the sweep). `apps/meshs3d/hash.c` is the same table as
`libs3d/hash.c` and modelled by the same class.

**Transport and object ids** (`libs3d/shm_ringbuf.c`, `libs3d/network.c`, `server/shm.c`,
`libs3d/object_queue.c`, `server/proto.c`): *RingBuf* (the class), *RingRace* (writer and
reader interleaved step by step), *Frames*, *FramedRace* (messages over that), *ObjectQueue* (the class), *IdProtocol* (server,
both channels, client and application interleaved).

**Three self-contained algorithms**: *Rows*, *Kernels*, *Elimination*, *Inversion* (the run on
values) and *MatrixStack* (Gauss inversion in `server/matrix.c`); *Textures* (upload in fragments against the direct copy);
*Widgets*, *Motions* and *Toolkit* (widget deletion and the animation stack of `libs3dw`).

**The process table** (`server/process.c`, `server/mcp.c`): *Processes*, *ProcessTable*; *Kinds* has the type bits of objects.

## What the code does not do

Where the code falls short of what it is for, the model keeps the code and states exactly
when it is right.

- A contour of a single point takes only the branch for a contour's last point. It gets the
  vertex before it as predecessor, and that one's segment is redirected
  (`libs3d/sei_tri.c:82-85`). `Contours.BuildContours`: the table is right if and only if no
  contour is a single point.
- Deleting an object unlinks its children without refreshing their matrices
  (`server/object.c:1985-1992`). `SceneSlots.FreedCaches` and `SceneServer.Process.ObjDel`:
  the caches stay right if and only if nothing was linked to the object; the stale matrices
  are named.
- `mcp_focus` tests the bit `OF_VIRTUAL`, which the type bits of a pointer contain
  (`server/mcp.c:84`). `ProcessTable.FocusTakesPointers`: the focus is nowhere or with a
  process if and only if no live pointer was named; `FirstPointerTakesFocus` is an input.
- A second INIT of a process registers it again and leaves the first object of the MCP
  behind (`server/process.c:54-60`). `Processes.RegistrationKeepsOwned`: every virtual object
  stays owned if and only if the process had not registered before.
- The bucket of an address without a name is not reduced to the table
  (`apps/meshs3d/process.c:100-103`). `NodeIds.IdChooseInRange` has the exact condition. The
  sum for a pair is reduced once more, so the connection table is not affected.
- The counter `requested` does not bound the ids asked for. `IdProtocol.RequestsUnderWay`:
  these stay within the limit if and only if the counter and the ids ever given out do
  together; `TooManyRequests` is a run where they do not.
- A pivot with a square up to 1e-8 counts as zero (`server/matrix.c:102`).
  `MatrixStack.Current.MyInvert` and `Inversion.InversionIsRight`: the result is the inverse
  if and only if every pivot in `RejectedPivots` of the matrix is zero;
  `SmallDiagonalIsRefused` is a matrix where one is not.
- The clipped width of an image is kept in 16 bits (`server/object.c:859`).
  `Textures.LoadsWhenOnCourse`: the image is pasted if and only if it starts at most 2^15
  behind the texture's right edge, or has no lines, or starts behind the last pixel. The
  clipped height needs no condition, as the loop's own test catches it.
- The line number of a fragment is sent in 16 bits (`libs3d/proto_out.c:1090`).
  `Textures.UploadsWhenInOrder`: an upload is right if and only if every fragment is on course
  and no number wraps around into the texture. `Textures.OutOfOrder` has an input for either.
- A widget with goal scale zero that is not at scale zero yet is animated for ever, over
  exact reals: `Motions.AnimationsEnd`.


## Model

| member | source | states |
|---|---|---|
| `GreedyCut.WorkingArrives` | libs3d/sei_monotone.c:544-606 | On every one-sided monotone polygon the greedy cutter reaches `endv` with exactly two vertices on its chain: it never steps over `endv`, from any state it can get into. |
| `GreedyCut.LastCornerIsConvex` | libs3d/sei_monotone.c:571-588 | The key step: with only `endv` ahead and more than two vertices on the chain, the last corner is convex; a chain without convex corners would put the second vertex on the wrong side of the closing edge. |
| `GreedyCut.ReflexChainBulgesInward` | libs3d/sei_monotone.c:571-588 | A monotone chain without convex corners lies, all of it, to the right of its first edge. |
| `GreedyCut.CutCountsAndTurns` | libs3d/sei_monotone.c:544-606 | The cutter emits exactly m - 2 triangles for m vertices, each positively oriented. |
| `GreedyCut.CutKeepsBoundary` | libs3d/sei_monotone.c:544-606 | Edge for edge the triangles' boundaries add up to the polygon's boundary, for every antisymmetric edge weight (signed area, winding number, ...). |
| `Winding.CutTiles` | libs3d/sei_monotone.c:544-606 | The triangles tile the polygon: a point is strictly inside at most as many triangles as the polygon winds around it (0 or 1), and in the closure of at least as many. |
| `Winding.PositiveTriangleWinds` | libs3d/sei_monotone.c:544-606 | The crossing count of a positively oriented triangle is 1 inside, 0 outside and one of both on the boundary, which ties the boundary sums to points of the plane. |
| `Winding.WindingCountsTriangles` | libs3d/sei_monotone.c:481-537 | Over any list of positively oriented triangles, the summed winding lies between the number of triangles strictly containing a point and the number containing it at all. |
| `Rings.StoresSplice` | libs3d/sei_monotone.c:175-189 | The ten stores of `make_new_monotone_poly`, in their order, amount to the simultaneous splice, also when the two positions are neighbours or equal. |
| `Rings.SpliceSplits` | libs3d/sei_monotone.c:175-189 | With both ends on one ring, the splice leaves exactly two rings: p followed by everything from q on, and the two copies around what lay between; next and prev stay mutually inverse. |
| `Rings.SpliceMerges` | libs3d/sei_monotone.c:175-189 | With the ends on two rings, the splice leaves one ring in the stated order. |
| `Rings.SpliceKeeps` | libs3d/sei_monotone.c:175-189 | A ring the diagonal does not touch is a ring afterwards. |
| `Polygons.SplicePartition` | libs3d/sei_monotone.c:175-189 | Positions 1..m stay partitioned into rings by every diagonal, whatever its ends: one ring more when they share a ring, one less otherwise. |
| `Polygons.SpliceKeepsBoundary` | libs3d/sei_monotone.c:175-189 | The rings after a diagonal bound together what the rings before it bounded: both sides of the diagonal cancel. |
| `Diagonals.DiagonalKeepsCoherent` | libs3d/sei_monotone.c:157-210 | A whole diagonal, with its vertex slots and polygon entries, keeps the state coherent: partition into rings, entries and slots on used positions carrying the right vertex, m - 2 * rings == n - 2c + 4 * merges, unchanged boundary. |
| `Diagonals.DiagonalKeepsSlots` | libs3d/sei_monotone.c:157-210 | Every position stays in exactly one slot of its vertex, and every slot tells which vertex follows there: the chosen slot is told the other end point, both copies get slots of their own. |
| `Diagonals.DiagonalMayBeStored` | libs3d/sei_monotone.c:157-210 | Coherence is all that storing a diagonal needs. |
| `Diagonals.DiagonalKeepsEntries` | libs3d/sei_monotone.c:157-210 | After a diagonal every ring has an entry in `mon` exactly if every ring it does not touch has one other than the entry it redirects. |
| `Contours.BuildContours` | libs3d/sei_tri.c:71-100 | The segment table holds one ring per contour exactly when no contour is a single point. |
| `Contours.BuildContour` | libs3d/sei_tri.c:77-97 | A contour of two or more points becomes a ring of segments, from each vertex to the next, and nothing outside its block changes. |
| `Contours.BuildSinglePoint` | libs3d/sei_tri.c:77-97 | A contour of a single point gets the vertex before it as predecessor and overwrites that segment's end point. |
| `Contours.ContoursAreRings` | libs3d/sei_tri.c:71-100 | The chain table initialised from well-built contours is partitioned into exactly the contours' rings. |
| `Contours.InitialPoolIsCoherent` | libs3d/sei_monotone.c:216-259 | The splitter's tables before the first diagonal are coherent for the contours. |
| `Drawings.WidestIsUsed` | libs3d/sei_monotone.c:102-151 | The slot scan settles on a slot in use, and no slot in use measures wider. |
| `Drawings.WidestWins` | libs3d/sei_monotone.c:102-151 | The slot chosen is the first of those that measure most; slot 0 without measuring only if none measures more than the start value. |
| `Splitter.Monotone.constructor` | libs3d/sei_monotone.c:216-245 | The cleared and filled tables satisfy the splitter's invariant for the rings of the contours. |
| `Splitter.Monotone.GetVertexPositions` | libs3d/sei_monotone.c:102-151 | The scan over the vertex slots returns, for each end, the slot the specification chooses, one that is in use. |
| `Splitter.Monotone.Splice` | libs3d/sei_monotone.c:175-189 | The in-place link surgery leaves the specified table. |
| `Splitter.Monotone.StoreDiagonal` | libs3d/sei_monotone.c:157-210 | All table updates together leave exactly the specified state. |
| `Splitter.Monotone.MakeNewMonotonePoly` | libs3d/sei_monotone.c:157-210 | Any diagonal between two different vertices keeps the invariant, returns the new entry, and changes the state as specified. |
| `Traversal.PlanIsRight` | libs3d/sei_monotone.c:263-473 | In every branch, for a trapezoid placed as the trapezoidation leaves it: no diagonal exactly when top and bottom are ends of one side; otherwise the diagonal spans top and bottom in the direction that keeps the current polygon where the walk came from, and each neighbour goes on with the polygon on its own side. |
| `Traversal.PlanVisitsAllNeighbours` | libs3d/sei_monotone.c:263-473 | Whatever the branch of the decision table and the direction, the recursive calls lead to all neighbours u0, u1, d0, d1 and nowhere else. |
| `Traversal.PlansAgree` | libs3d/sei_monotone.c:263-473 | Whether a trapezoid calls for a diagonal, and between which corners, does not depend on the way the walk comes. |
| `Traversal.WalkVisitsReachable` | libs3d/sei_monotone.c:263-473 | A walk from nothing visited ends with exactly the reachable trapezoids visited. |
| `Traversal.ReachableIsSplittable` | libs3d/sei_monotone.c:263-473 | Inside a region where every planned diagonal is between two different vertices, so are those of the reachable part. |
| `Splitter.Monotone.TraversePolygon` | libs3d/sei_monotone.c:263-473 | Terminates (fewer unvisited trapezoids) and visits what can be reached from the trapezoid. The record of its stops has each newly visited trapezoid once; every stop was called at an earlier one, with the new polygon where the plan says so and with the stop's own otherwise; new polygons are numbered in order. Exactly the diagonals the stops call for are drawn, across the polygons they were entered with, and the tables are those after these diagonals. |
| `Splitter.Monotone.MonotonateTrapezoids` | libs3d/sei_monotone.c:216-259 | The walk starts at the first inside triangle; afterwards a trapezoid is visited exactly if it can be reached (and the walk set out). Where trapezoids are well placed and links lead back, every diagonal is right, direction included, and every trapezoid was entered with the polygon on its side of the diagonal of the one before. One polygon more than diagonals; and no polygon loses its entry if every diagonal touches the polygon it is to split. |
| `Walks.CalledFromThere` | libs3d/sei_monotone.c:263-473 | With links that lead back, every recursive call comes, at the neighbour, from where the trapezoid is. |
| `Walks.CalledOnItsSide` | libs3d/sei_monotone.c:263-473 | Every recursive call hands on the polygon on the neighbour's side of the diagonal. |
| `Walks.WalkIsRight` | libs3d/sei_monotone.c:263-473 | Over a whole walk every diagonal is right, and every trapezoid is entered with the polygon on its side of the diagonal of the trapezoid the walk comes from. |
| `Walks.LogUnder` | libs3d/sei_monotone.c:263-473 | A stop and the walk over its calls make the record of a walk: stops once each, polygons numbered on, every stop called at an earlier one. |
| `Drawings.OwnStrokesLoseNone` | libs3d/sei_monotone.c:157-210 | While every diagonal touches the polygon it is to split, no polygon loses its entry: in the end only contours nothing touched can lack one. |
| `Splitter.InsideIsLeft` | libs3d/sei_monotone.c:54-74 | A triangle with both sides is taken for inside exactly if it lies to the left of the direction of its right side. |
| `Cutting.CuttableCutsWell` | libs3d/sei_monotone.c:494-530 | For every ring that reads as a cuttable chain from one of its positions, whichever top and lowest point the scan reports, the walk it sends the cutter on triangulates the ring. |
| `Cutting.PassComplete` | libs3d/sei_monotone.c:481-537 | Once all entries had their turn: m - 2 * rings positive triangles whose boundaries add up to that of all rings. |
| `Splitter.Monotone.ScanPolygon` | libs3d/sei_monotone.c:492-517 | Walking a ring from an entry marks exactly that ring, tells whether an earlier entry did, and finds its length, its highest position and its lowest point. |
| `Splitter.Monotone.TriangulateSinglePolygon` | libs3d/sei_monotone.c:544-606 | The in-place stack algorithm emits exactly what the specification of the cutter emits, on every polygon it can be sent on. |
| `Splitter.Monotone.CutEntry` | libs3d/sei_monotone.c:489-533 | One entry's turn: nothing for a ring that was cut, otherwise triangles that triangulate it; the ring is marked and all links stay. |
| `Splitter.Monotone.TriangulateMonotonePolygons` | libs3d/sei_monotone.c:481-537 | When every ring has an entry and is cuttable: exactly n - 2c + 4 * merges triangles in all, each positive, each ring cut once, with the same boundary as the contours. |
| `Coverage.AreaConserved` | libs3d/sei_monotone.c:481-537 | Triangles with the contours' boundary have the area the contours enclose. |
| `Coverage.ContoursCovered` | libs3d/sei_monotone.c:481-537 | Every point of the plane is strictly inside at most, and in the closure of at least, as many triangles as the contours wind around it. |
| `Tolerance.SideOfLine` | libs3d/sei_construct.c:229-266 | At a level clearly between its ends, a point is to the left of a segment exactly if it is to the left of the line through them, in coordinates, whichever end comes first. |
| `Tolerance.SideAtEnd` | libs3d/sei_construct.c:229-266 | At the level of an end, the end's place decides. |
| `Tolerance.ApartIsExact` | libs3d/sei_construct.c:99-120 | Points on the same level, or on levels further apart than the tolerance, are compared exactly. |
| `Tolerance.EndsAreOrdered` | libs3d/sei_construct.c:64-96 | And the higher and the lower end of a segment are told apart. |
| `QueryStructure.Locate` | libs3d/sei_construct.c:286-330 | In every well-formed structure the search terminates from any node in use and returns a valid trapezoid. |
| `QueryStructure.PassingIsEnough` | libs3d/sei_construct.c:286-330 | A search started from a node on the way ends where the search from the start ends. |
| `QueryStructure.FoundSinkIsPassed` | libs3d/sei_construct.c:889-902 | Between insertions the sink a search ends at is itself on the way of that search, so it can be cached. |
| `QueryStructure.SinksAreTrapezoids` | libs3d/sei_construct.c:340-396 | The sinks that can be reached from the root are in bijection with the valid trapezoids. |
| `QueryStructure.PathsNeverReturn` | libs3d/sei_construct.c:340-396 | The structure is acyclic, also after merges made it a DAG. |
| `QuerySteps.ExpandKeepsStructure` | libs3d/sei_construct.c:428-537 | Splitting a trapezoid, its sink turning into an inner node in place, keeps the structure well formed. |
| `QuerySteps.ExpandRefinesSearch` | libs3d/sei_construct.c:428-575 | A split changes only the searches that ended in the trapezoid split, and tells those apart by the new node's key. |
| `QuerySteps.ExpandKeepsPassing` | libs3d/sei_construct.c:428-575 | A node a search comes past is still passed after any split. |
| `QuerySteps.MergeKeepsStructure` | libs3d/sei_construct.c:340-396 | Merging a trapezoid whose sink has a single parent keeps the structure well formed. |
| `QuerySteps.MergeRedirectsSearch` | libs3d/sei_construct.c:340-396 | A merge changes only the searches that ended in the trapezoid merged away: they end in the one that absorbed it. |
| `QuerySteps.MergeKeepsPassing` | libs3d/sei_construct.c:340-396 | Merging away a sink made during the current insertion leaves every older node on the way of its searches. |
| `Insertion.CachedSearchIsPlainSearch` | libs3d/sei_construct.c:889-902 | Searching from a segment's cached root ends in the same trapezoid as searching from the global root, for both end points. |
| `Insertion.CutKeepsFresh` | libs3d/sei_construct.c:545-575 | While a segment is being threaded, exactly the trapezoids it flanks are fresh: their sinks have a single parent, made in this insertion. |
| `Insertion.CutStep` | libs3d/sei_construct.c:545-575 | One more cut on the way refines the searches by the segment's side, and only those that ended in the trapezoid cut. |
| `Insertion.PassMayMerge` | libs3d/sei_construct.c:340-396 | Whenever the merge pass finds good neighbours, the lower one is valid, fresh and a different trapezoid: what a merge needs. |
| `Insertion.PassMerges` | libs3d/sei_construct.c:340-396 | A merge keeps the pass's invariant and brings it closer to its end. |
| `Threading.InitialIsWellFormed` | libs3d/sei_construct.c:148-221 | The first structure, seven nodes and four trapezoids, is well formed. |
| `Threading.InitialLinksAgree` | libs3d/sei_construct.c:148-221 | Links up and down in the first tables lead exactly to the trapezoids that touch, and back. |
| `Threading.InitialSearches` | libs3d/sei_construct.c:148-221 | In it every search ends above, below, left or right of the first segment as the point lies. |
| `Threading.ThreadedSearches` | libs3d/sei_construct.c:405-882 | The searches across all cuts and both merge passes, composed. |
| `Trapezoidation.Trapezoidation.constructor` | libs3d/sei_construct.c:148-221 | The tables are those of the first segment and satisfy the invariant, all cached roots included; every search ends in the right one of the four trapezoids. |
| `Trapezoidation.Trapezoidation.SplitSink` | libs3d/sei_construct.c:456-475 | A sink becomes an inner node over two new sinks for the two parts. |
| `Trapezoidation.Trapezoidation.SplitAtPoint` | libs3d/sei_construct.c:432-476 | Splitting a trapezoid at an end point changes both tables as specified: the upper part keeps the row, the lower part is new and takes the lower neighbours. |
| `Trapezoidation.Trapezoidation.InsertPoint` | libs3d/sei_construct.c:428-480 | An end point is looked up from its cached root and lands where the search from the global root does; it is put in unless it is there already. |
| `Trapezoidation.Trapezoidation.InsertEndpoints` | libs3d/sei_construct.c:405-537 | Both end points are seen to, the higher one first, at the trapezoids plain searches find; the tables are those of two splits there, of none where a neighbour has the point in already. |
| `Trapezoidation.Trapezoidation.CutWalk` | libs3d/sei_construct.c:545-870 | Cutting all trapezoids on the way keeps every invariant, refines all searches by the segment's side, and leaves the tables of the cuts one after the other. |
| `Trapezoidation.Trapezoidation.MergeInto` | libs3d/sei_construct.c:340-396 | The in-place merge changes both tables as specified. |
| `Trapezoidation.Trapezoidation.MergeTrapezoids` | libs3d/sei_construct.c:340-396 | A merge pass terminates, keeps the structure and the caches, merges only trapezoids flanking the segment on the same side between the same segments, and every search ends where its trapezoid went; on the way down no two good neighbours are left. The tables are those of `Tables.MergePass`. |
| `Trapezoidation.Trapezoidation.ThreadSegment` | libs3d/sei_construct.c:538-882 | The second half of an insertion keeps the invariant and marks exactly this segment; the searches afterwards are those before, refined by the segment's side and followed into the merged trapezoids. |
| `Trapezoidation.Trapezoidation.FindNewRoots` | libs3d/sei_construct.c:889-902 | The cached roots of a segment not inserted yet become the sinks the plain searches end at, and the invariant holds. |
| `Trapezoidation.Trapezoidation.FindAllRoots` | libs3d/sei_construct.c:920-927 | After each phase the cached roots of all segments still to come are the sinks their searches end at. |
| `Trapezoidation.Trapezoidation.AddSegment` | libs3d/sei_construct.c:405-882 | Granted exactly when the tables have room for the end points that are missing and for every cut, told from the tables before the call. Then exactly this segment is marked, the invariant holds, the tables are those of plain searches, splits, cuts and merges, and every search ends where the levels of the end points, the side of the segment and the merges put it. |
| `Additions.EndSearches` | libs3d/sei_construct.c:405-537 | Seeing to both end points tells apart by their levels the searches that ended in their trapezoids, and no others. |
| `Additions.AddedSearches` | libs3d/sei_construct.c:405-882 | Splits at the end points, cuts and merges composed: where every search ends after a whole insertion. |
| `Trapezoidation.ConstructTrapezoids` | libs3d/sei_construct.c:906-932 | A whole run over any ordering and any phases succeeds exactly when the tables have room for every segment. Then every segment is in: a node asks for its side, trapezoids lie on both, and along contours nodes ask for the levels of its ends; every search ends in a trapezoid that lies around its point, in coordinates; the tables are those of adding the segments one by one with searches from the top, whatever the phases; the contours are untouched. |
| `Separation.PointKeepsSeparated` | libs3d/sei_construct.c:428-480 | A split at an end point leaves every search between the segments that flank the trapezoid it ends in. |
| `Separation.CutKeepsSeparated` | libs3d/sei_construct.c:545-600 | A cut does so too: searches to the right of the segment end in the part it flanks on the left, the others in the part it flanks on the right. |
| `Separation.MergeKeepsSeparated` | libs3d/sei_construct.c:340-396 | A merge of good neighbours does so too. |
| `Separation.InitialIsSeparated` | libs3d/sei_construct.c:148-221 | And the tables for the first segment, which lie on both sides of its node. |
| `Separation.SearchesSurround` | libs3d/sei_construct.c:286-330 | In coordinates: every search ends in a trapezoid whose levels are around the point, whose left segment is not to its right and whose right segment is strictly to its right. |
| `Separation.NeighbourIsKeyed` | libs3d/sei_construct.c:272-279 | An end point shared with an inserted segment has a node for its level already, so that the test of the neighbour's flag is right. |
| `Tables.JobIsOrdered` | libs3d/sei_construct.c:405-424 | The end seen to first is the higher one, and each end comes with the flag of the segment that shares it. |
| `Separation.MergeKeepsInstalled` | libs3d/sei_construct.c:340-396 | A segment that is in keeps its node and valid trapezoids on both sides over a merge. |
| `Separation.InstalledIsReached` | libs3d/sei_construct.c:286-330 | The node of a segment that is in lies below the root. |
| `Ordering.DrawKeepsOrdering` | libs3d/sei_misc.c:53-58 | One draw, with the first of those left filling the gap, keeps chosen and left together a permutation. |
| `Ordering.GenerateRandomOrdering` | libs3d/sei_misc.c:39-60 | Whatever the random numbers, the ordering holds each of 1..n exactly once; which one it is follows from the numbers. |
| `Triangulation.ContoursGiveNeighbours` | libs3d/sei_tri.c:71-100 | Every segment of well-built contours has both neighbours in the table. |
| `Triangulation.ContoursAreJoined` | libs3d/sei_tri.c:71-100 | Segments of well-built contours share their end points with their neighbours. |
| `Triangulation.ContoursSurvive` | libs3d/sei_construct.c:906-932 | The trapezoidation leaves the contour rings as they are. |
| `Triangulation.StartSplitting` | libs3d/sei_tri.c:61-108 | From contours without single points to the splitter's first state, exactly when the tables have room for every segment in the order drawn: all segments are in, with nodes for their sides and for the levels of their ends, every search ends in a trapezoid around its point, and the splitter starts from exactly the rings of the contours. |
| `Scene.PathFits` | server/object.c:1206-1227 | A link path is never longer than there are slots, so the recursion guard `depth < n_obj` never cuts one. |
| `Scene.PathUnchanged` | server/object.c:1206-1227 | A path and its composed transformation depend only on the objects on it. |
| `Scene.RankDoesNotMatter` | server/object.c:1206-1227 | Paths do not depend on the witness that there are no cycles. |
| `SceneLinks.UnlinkKeepsForest` | server/object.c:1715-1740 | Taking an object out of its sibling chain, wherever it sits, keeps the links a forest and every chain exactly the children. |
| `SceneLinks.LinkKeepsForest` | server/object.c:1743-1758 | Putting an unlinked object that is not above the target into the target's chain keeps the forest. |
| `SceneLinks.ChildOfOne` | server/object.c:1715-1758 | No object is in two places of the chains. |
| `SceneUpdate.TourIsSubtree` | server/object.c:1394-1449 | The update's recursion visits exactly the subtree of its root. |
| `SceneUpdate.TourIsDistinct` | server/object.c:1394-1449 | It visits nothing twice. |
| `SceneUpdate.RefreshRestoresCaches` | server/object.c:1394-1449 | After one object was moved or linked elsewhere, refreshing its subtree leaves every object up to date with the composition along its path, or as created. |
| `Scene.CachesAreCompositions` | server/object.c:1206-1227 | Every live object's cached matrix means the composition along its full link path, in any monoid in which a translation and a rotation by nothing and a scaling by one are neutral. |
| `Scene.LocalAlone` | server/object.c:1206-1227 | An object only moved, only turned about one axis or only scaled means just that: each angle turns about its own axis. |
| `SceneSlots.FillKeepsForest` | server/object.c:1818-1860 | A new object in a free slot, or one past the end, keeps forest and caches. |
| `SceneSlots.FreedPath` | server/object.c:1976-2023 | What deletion does to a path: the part above and at the deleted object is lost from the composition. |
| `SceneSlots.FreedCaches` | server/object.c:1985-1992 | After a deletion the caches are all right exactly when nothing was linked to the deleted object; what was below it still holds the old composition. |
| `SceneServer.Process.IntoPosition` | server/object.c:1206-1227 | Multiplies the current matrix by the composition along the full link path. |
| `SceneServer.Process.RecalcTmat` | server/object.c:1321-1335 | Refreshes exactly the object that is not up to date. |
| `SceneServer.Process.PosUpdate` | server/object.c:1394-1449 | Terminates and refreshes exactly the objects of the tour, in its order. |
| `SceneServer.Process.LinkDelete` | server/object.c:1715-1740 | The pointer surgery takes the object out of its chain and keeps the forest. |
| `SceneServer.Process.LinkInsert` | server/object.c:1743-1758 | The pointer surgery puts the object in front of the target's children and keeps the forest. |
| `SceneServer.Process.WouldCycle` | server/object.c:1775-1781 | The ancestor walk terminates and finds out whether the link would close a circle. |
| `SceneServer.Process.Settle` | server/object.c:1394-1449 | The update after a move or a link leaves the subtree up to date and right, and touches nothing outside it. |
| `SceneServer.Process.ObjLink` | server/object.c:1762-1797 | Granted exactly when both objects live, differ, the first is no pointer and no circle arises; afterwards only this link changed, the object and all below it are up to date, and every cached matrix is right. |
| `SceneServer.Process.ObjUnlink` | server/object.c:1800-1815 | Refused exactly for missing objects and pointers; afterwards unlinked, the object and all below it up to date, every cached matrix right, nothing else changed. |
| `SceneServer.Process.ObjTranslate` | server/object.c:1110-1140 | Moves user objects only; afterwards the object and all below it are up to date, every cached matrix is right, and nothing else changed. |
| `SceneServer.Process.ObjRotate` | server/object.c:1143-1187 | Sets the angles brought to within a turn; afterwards the object and all below it are up to date, every cached matrix is right, and nothing else changed. |
| `SceneServer.WithinTurnIsSameAngle` | server/object.c:1160-1178 | The stored angle lies in (-360, 360] and differs from the given one by whole turns. |
| `SceneServer.Process.ObjScale` | server/object.c:1190-1203 | Ignores factors next to zero; otherwise the object and all below it are up to date afterwards, every cached matrix is right, and nothing else changed. |
| `SceneServer.Process.ObjNew` | server/object.c:1818-1860 | Takes the first free slot or a new one at the end for an unlinked object at the origin whose matrix is the identity, and keeps all invariants. |
| `SceneServer.Process.ClearLinks` | server/object.c:1982-1992 | The child loop terminates and unlinks the object and exactly its children. |
| `SceneServer.Process.ObjFree` | server/object.c:1976-2023 | The slot is empty afterwards, nobody refers to it, everybody else lives on, and the last slot is in use. |
| `SceneServer.Process.ObjDel` | server/object.c:1917-1973 | System objects stay; otherwise the object is freed, and the invariant holds exactly when nothing was linked to it. |
| `Chains.AppendKeepsLayout` | libs3d/hash.c:156-189 | A cell behind the end of one chain keeps all chains duplicate-free and apart. |
| `Chains.SkipKeepsLayout` | libs3d/hash.c:213-230 | So does taking a cell out, at the head or further down. |
| `Chains.AllIsDistinct` | libs3d/hash.c:65-131 | Walking the table entry by entry meets no cell twice. |
| `HashTable.AppendRepresents` | libs3d/hash.c:156-189 | A new key's cell turns the represented map into the map with the key added. |
| `HashTable.SkipRepresents` | libs3d/hash.c:213-257 | Taking a cell out removes exactly its key. |
| `HashTable.DeletesBehind` | libs3d/hash.c:213-230 | Removing the bucket an iterator stands on takes it from what the iterator came past and leaves what lies ahead. |
| `HashTable.StepsOver` | libs3d/hash.c:65-131 | Moving to the next non-empty entry skips nothing. |
| `Hash.Table.Add` | libs3d/hash.c:156-189 | Refuses a key that is there, otherwise adds it to the map and counts it. |
| `Hash.Table.Find` | libs3d/hash.c:191-208 | Finds exactly what the map holds. |
| `Hash.Table.Remove` | libs3d/hash.c:237-257 | Returns and removes the key's element, if any, and counts it. |
| `Hash.Table.RemoveBucket` | libs3d/hash.c:213-230 | Removes exactly the element the iterator stands on; the iterator can go on. |
| `Hash.Table.Resize` | libs3d/hash.c:260-281 | The new table of any positive size holds the same map. |
| `Hash.Table.Iterate` | libs3d/hash.c:65-131 | Yields the next cell ahead, in all three positions an iterator can be in after a removal, and ends exactly when nothing is ahead. |
| `Hash.Table.MetKeys` | libs3d/hash.c:65-131 | What an iteration meets is exactly the map, every key once. |
| `Hash.Table.Sweep` | libs3d/hash.c:65-131 | Iterating while deleting the current element at arbitrary moments meets every element of the start exactly once, ends, and leaves exactly those not deleted, counted right. |
| `NodeIds.IdCompIsAntisymmetric` | apps/meshs3d/process.c:30-69 | Swapping two addresses flips the sign, and only equal addresses compare as equal. |
| `NodeIds.IdCompIsTransitive` | apps/meshs3d/process.c:30-69 | The comparison is transitive, hence a total order. |
| `NodeIds.PairsAreUnordered` | apps/meshs3d/process.c:194-212 | Two announcements meet in one entry exactly when they name the same two nodes, in either order. |
| `NodeIds.LongCompIsEquality` | apps/meshs3d/process.c:118-134 | The connection comparison is equality of pairs. |
| `NodeIds.IdChooseInRange` | apps/meshs3d/process.c:71-116 | The bucket index lies in the table exactly unless the address has no name and the table has at most 0x1505 entries: that index is not reduced. |
| `NodeIds.LongChoose` | apps/meshs3d/process.c:136-142 | The bucket of a pair is always inside the table. |
| `Mesh.Connections.HandleCon` | apps/meshs3d/process.c:194-265 | The entry is found or made; the announcing node's side gets the cost, the other side and all other connections keep theirs, a new one starting at 1.0; the table is doubled exactly when it is too full. |
| `Mesh.Connections.Grow` | apps/meshs3d/process.c:256-261 | Doubling the table keeps the connections. |
| `Mesh.SweepCon` | apps/meshs3d/process.c:525-541 | One connection's turn in the sweep: removed if it was not heard of, flagged old otherwise. |
| `Mesh.Connections.EndOfBlock` | apps/meshs3d/process.c:525-541 | The sweep leaves exactly the connections heard of since the last one, unchanged, all flagged old. |
| `Mesh.Connections.ProcessBlock` | apps/meshs3d/process.c:365-555 | After every completed block the table holds exactly the unordered pairs announced in that block. On either side each has the last cost that side announced in the block, or the one it had before (1.0 if new); a connection that survives is the same object. |
| `Mesh.NotedAreLast` | apps/meshs3d/process.c:195-262 | Announcement by announcement, the cost on each side ends up as the last one that side announced. |
| `RingBuf.WriteAppends` | libs3d/shm_ringbuf.c:11-55 | Bytes stored behind the unread ones, going round, are appended to them. |
| `RingBuf.ReadTakes` | libs3d/shm_ringbuf.c:56-81 | Moving the start over the oldest bytes takes exactly them. |
| `RingBuf.RingBuf.constructor` | server/shm_ringbuf.c:69-75 | A new ring is empty. |
| `RingBuf.RingBuf.ShmWrite` | libs3d/shm_ringbuf.c:11-55 | Appends all of the buffer or nothing, and all of it exactly when one byte stays free. |
| `RingBuf.RingBuf.ShmRead` | libs3d/shm_ringbuf.c:56-81 | Returns the oldest bytes, up to the number asked for, and leaves the rest. |
| `RingBuf.RingBuf.ShmWriten` | libs3d/shm.c:110-128 | Writes all or gives up; without a reader it succeeds exactly when there is room at once. |
| `RingBuf.RingBuf.ShmReadn` | libs3d/shm.c:129-149 | Collects the oldest bytes, up to the number asked for. |
| `RingRace.WCopyKeeps` | libs3d/shm_ringbuf.c:45-51 | A byte copied by a write under way lands in a slot no unread byte is in. |
| `RingRace.StepKeeps` | libs3d/shm_ringbuf.c:11-81 | Every step of either side, at snapshot, copy or publication, keeps the invariant that ties the indices to the counts of bytes written and read. |
| `RingRace.AnyInterleaving` | libs3d/shm_ringbuf.c:11-81 | Over every interleaving of one writer and one reader: both indices and every copy stay inside, the bytes read are a prefix of those accepted, the unread ones are in the ring, and a full ring never looks empty. |
| `RingRace.CopiesStayInside` | libs3d/shm_ringbuf.c:45-51 | No copy of either side goes to or comes from a place outside the buffer. |
| `RingRace.CallsBegin` | libs3d/shm_ringbuf.c:11-81 | In every state a run can get into, a write starts exactly when it leaves one byte free, and a read gets what there is, up to what it asks for. |
| `Frames.FrameIsRecovered` | libs3d/network.c:18-41 | A stream that begins with a frame tells opcode, length and payload of the message and what follows. |
| `Frames.FramesAreUnambiguous` | libs3d/network.c:18-41 | Equal streams of frames come from equal messages. |
| `Frames.Connection.NetSend` | libs3d/network.c:18-41 | The frame goes into the ring whole or not at all; the ring always holds whole frames. |
| `Frames.Connection.ShmProtComIn` | server/shm.c:223-238 | Decodes the oldest accepted message not decoded yet. |
| `Frames.DecodedAreAccepted` | server/shm.c:223-285 | For any run of sends and reads, header and payload read separately: the decoded messages are a prefix of the accepted ones, and all of them once the ring is empty. |
| `Frames.AcceptedAreFrames` | libs3d/shm_ringbuf.c:11-55 | Whatever the reader does while writes are under way, what gets accepted is a sequence of whole frames. |
| `FramedRace.ActKeeps` | libs3d/shm_ringbuf.c:11-81 | Every step of a client that writes frames and a server that takes headers and payloads keeps: the bytes read are the decoded messages' frames and the header in hand, and a read under way gets all it wants. |
| `FramedRace.DecodedAreSent` | server/shm.c:223-285 | Over every interleaving, byte by byte, the server decodes the published messages, in order and whole, and has decoded all of them when it sees an empty ring. |
| `ObjectQueue.StockedHasOneMore` | libs3d/object_queue.c:52-71 | A stocked id is at hand once more than before, whether a place was free or the queue grew. |
| `ObjectQueue.GivenHasOneLess` | libs3d/object_queue.c:73-104 | Giving an id out takes exactly it from the stock. |
| `ObjectQueue.Queue.Fill` | libs3d/object_queue.c:43-50 | Requests an id for each free place. |
| `ObjectQueue.Queue.NewObject` | libs3d/object_queue.c:52-71 | Puts the id in the first free place, or in a new one, and counts the request down. |
| `ObjectQueue.Queue.WantOnce` | libs3d/object_queue.c:73-104 | Gives out the first id at hand and requests another, or requests one up to the limit. |
| `IdProtocol.AllocatesOne` | server/object.c:1818-1860 | A new object's slot was not taken, and is the only one that changes. |
| `IdProtocol.DeletesOne` | server/object.c:1917-1973 | A deletion request frees exactly the slot it names. |
| `IdProtocol.StepKeeps` | server/proto.c:59-68 | Serving a request, receiving an id, wanting one and deleting one all keep the invariant that every live non-system slot is in exactly one place. |
| `IdProtocol.IdsAreHeldOnce` | libs3d/object_queue.c:43-104 | Over every interleaving: what the application holds are live objects, each held once and nowhere else; every live object's id is in the queue, in a NEWOBJ message, held, or in a DEL_OBJ message. |
| `IdProtocol.HeldUntilDeleted` | libs3d/proto_in.c:43-58 | No id is given out twice without a deletion in between. |
| `IdProtocol.RequestsUnderWay` | libs3d/object_queue.c:73-104 | The requests and ids under way are the counter plus the number of ids ever given out, plus one: they stay within the limit exactly while these sums do. |
| `IdProtocol.TooManyRequests` | libs3d/object_queue.c:73-104 | A run that has more than the limit of requests under way while the counter is below it. |
| `Elimination.NormalizedGood` | server/matrix.c:104-111 | Dividing a line by its pivot keeps right side times original equal to the left side, up to the same error. |
| `Elimination.AddedGood` | server/matrix.c:113-123 | So does adding a multiple of one line to another. |
| `Elimination.SwappedGood` | server/matrix.c:126-138 | So does exchanging two lines. |
| `Elimination.RejectedGood` | server/matrix.c:124-142 | Taking a pivot for zero is the one step that adds an error, and adds none exactly if the pivot was zero. |
| `Elimination.RejectedSwapShape` | server/matrix.c:124-142 | After each rejected pivot fewer lines are left to try: the goto loop terminates. |
| `Elimination.InverseUpToError` | server/matrix.c:153-170 | With the identity on the left, the right side is the inverse exactly when no error was made. |
| `MatrixStack.Current.MyMultMatrix` | server/matrix.c:35-46 | The in-place multiplication computes the matrix product. |
| `MatrixStack.FindPivot` | server/matrix.c:100-143 | The pivot search terminates; with the lines it leaves, the run goes on as the run on values does, which met the same rejected pivots; it fails where that one meets a dead end. |
| `MatrixStack.BackSubstitute` | server/matrix.c:153-166 | Back substitution turns the left side into the identity without error. |
| `Elimination.DeadEnd` | server/matrix.c:124-142 | When no line is left to swap in and no error was made, the original matrix has no inverse. |
| `Kernels.SingularHasNoInverse` | server/matrix.c:124-142 | A matrix that takes a column other than zero to zero has no inverse. |
| `MatrixStack.Current.MyInvert` | server/matrix.c:90-170 | Result -1, with the matrix unchanged, exactly when the run on values meets a dead end. Otherwise the new matrix times the old one is the identity exactly when every pivot the run rejects is zero; and if every one is, the result is 0 exactly when there is an inverse. Rejected pivots are at most 0.0001 in size; with zeros below the diagonal the result is 0, and the inverse right, exactly when every diagonal entry is larger. |
| `Inversion.RunIsGood` | server/matrix.c:97-152 | However the run goes: an error was made exactly if some rejected pivot was not zero, and a dead end without one means that there is no inverse. |
| `Inversion.BackIsGood` | server/matrix.c:153-166 | The second step reaches the identity from any outcome of the first, without further error. |
| `Inversion.InversionIsRight` | server/matrix.c:90-170 | What is left is the inverse exactly when all rejected pivots are zero; then the inversion gives up exactly when there is none. |
| `Inversion.SmallIsNearZero` | server/matrix.c:102-102 | The test takes for zero exactly what is at most 0.0001 in size. |
| `Inversion.TriangularInverts` | server/matrix.c:90-170 | A matrix with zeros below the diagonal is inverted, and rightly, exactly when every diagonal entry is larger than 0.0001 in size. |
| `Inversion.SmallDiagonalIsRefused` | server/matrix.c:102-103 | The diagonal matrix of 0.00001, 1, 1, 1 has an inverse and is refused. |
| `Kinds.FlagsOfKinds` | server/mcp.c:80-93 | Which kinds carry the virtual and the system bit, from the bit patterns: pointers carry both. |
| `Processes.ObjectsAreDistinct` | server/process.c:19-71 | No two processes share an object of the MCP. |
| `Processes.RemovalKeepsCoherent` | server/process.c:148-162 | Swap-removal keeps the table coherent: processes numbered by place, and the moved process's object told. |
| `Processes.RegistrationKeepsCoherent` | server/process.c:19-71 | A process that registers gets an object of its own. |
| `Processes.RegistrationKeepsOwned` | server/process.c:19-71 | Every virtual object stays owned by a process exactly if the process had not registered before: a second INIT leaves the first object behind. |
| `ProcessTable.Server.McpFocus` | server/mcp.c:80-93 | The focus goes to the object if it lives and carries the virtual bit, and is lost otherwise; it is nowhere or with a process exactly if no pointer was named. |
| `ProcessTable.FocusTakesPointers` | server/mcp.c:80-93 | After the focus was set it is nowhere, or on an object some process is represented by, exactly if the object named is not a live pointer. |
| `ProcessTable.FirstPointerTakesFocus` | server/mcp.c:80-93 | At the start object 1, the pointer, takes the focus although no process is behind it. |
| `ProcessTable.Server.Register` | server/process.c:19-71 | Registration adds one virtual object for the process and hands it the focus when no MCP is connected. |
| `ProcessTable.Server.DeleteParts` | server/process.c:173-207 | A quitting process's object goes, and the focus with it if it was there; everybody else's entry stays right. |
| `ProcessTable.Server.ProcessDel` | server/process.c:131-145 | Removes the process, its object with its clones' references, and its focus, and nothing else; keeps the table coherent and every virtual object owned. When the MCP goes, its place is free again and exactly its objects and clones are gone. |
| `ProcessTable.Server.TakeMcp` | server/process.c:19-71 | Takeover is granted exactly when no MCP is connected; then the process leaves the table with its object, nothing is focussed, and the table stays coherent. |
| `ProcessTable.Server.ProtInit` | server/process.c:19-71 | Reserved names are refused, and so is the MCP's name while one is connected, changing nothing. With the MCP's name the process takes that place. With any other it gets a new virtual object of the MCP that names it, and the focus exactly if no MCP is connected; everything else stays. A first INIT keeps every virtual object owned. |
| `Textures.LoadTex` | server/object.c:854-904 | The loop over the lines does what the lines one by one do; on course, the image is pasted into its clipped rectangle and every other pixel stays. |
| `Textures.ClippedWidth` | server/object.c:859-879 | The 16-bit clipped width is right exactly unless the image starts more than 2^15 behind the texture's edge; then it comes out larger by 2^16. |
| `Textures.LoadsWhenOnCourse` | server/object.c:854-904 | Loading is pasting, for every content of the buffer, exactly if the image starts at most 2^15 behind the right edge, or has no lines, or starts behind the last pixel. |
| `Textures.PastedOneMore` | libs3d/texture.c:103-113 | Copying one clipped scanline adds exactly that line of the image. |
| `Textures.FragmentContinues` | libs3d/proto_out.c:1070-1102 | Pasting the next fragment over the upper lines is pasting the upper lines of both. |
| `Textures.FragmentFits` | libs3d/proto_out.c:1070-1102 | No fragment's message exceeds the length limit. |
| `Textures.LinestepIsMost` | libs3d/proto_out.c:1079-1081 | A fragment has as many lines as fit, and some exactly if one fits. |
| `Textures.SendFragments` | libs3d/proto_out.c:1070-1102 | The loop over the fragments does what the fragments one by one do. |
| `Textures.UploadsWhenInOrder` | libs3d/proto_out.c:1070-1102 | An upload in fragments is pasting, for every content of the buffer, exactly if each fragment is on course and none has a line number that wraps around into the texture. |
| `Textures.UsuallyInOrder` | libs3d/proto_out.c:1070-1102 | Which it is when the image ends within 16 bits and starts at most 2^15 behind the right edge. |
| `Textures.OutOfOrder` | libs3d/proto_out.c:1090-1090 | One image that is off course, and one whose second fragment comes back at the top. |
| `Textures.LoadTexture` | libs3d/proto_out.c:1070-1102 | Over shared memory or in fragments, the image is pasted when all is in order; it fails, changing nothing, exactly when one line does not fit a fragment and the texture is not attached. |
| `Widgets.FocusStays` | libs3dw/widget.c:83-90 | After swap-removal the focus is on the widget it was on, or lost with it. |
| `Widgets.RemoveKeepsTree` | libs3dw/widget.c:74-91 | Taking a widget out of its parent keeps the tree. |
| `Widgets.NobodyLeft` | libs3dw/widget.c:97-105 | Once a widget has no children left, nothing live is under it. |
| `Toolkit.Toolkit.WidgetAppend` | libs3dw/widget.c:55-72 | Appending a widget that is in no other keeps the tree. |
| `Toolkit.Toolkit.Focus` | libs3dw/widget.c:123-131 | The parent's focus is on the widget, and nothing else changes. |
| `Toolkit.Toolkit.AniStackpos` | libs3dw/animate.c:18-26 | Tells where the widget is on the stack, or that it is not. |
| `Toolkit.Toolkit.AniDel` | libs3dw/animate.c:48-57 | Takes exactly one item off the stack. |
| `Toolkit.Toolkit.AniAdd` | libs3dw/animate.c:29-45 | Puts the widget on the stack with its first step done, once, or moves it to its place at once; widgets without an object are refused. |
| `Toolkit.Toolkit.AniMate` | libs3dw/animate.c:147-163 | One pass moves every widget on the stack exactly once, although finished ones are swapped out on the way, and exactly the finished ones leave. |
| `Motions.AnimationsEnd` | libs3dw/animate.c:90-116 | Over exact reals an animation ends, however far it has to go, exactly when its goal is not scale zero or its scale is zero already. |
| `Motions.SettledIsClose` | libs3dw/animate.c:103-116 | What counts as settled is within a hundredth of the goal in every component, and within one percent of a positive goal scale. |
| `Toolkit.Toolkit.WidgetRemove` | libs3dw/widget.c:74-91 | The widget is off the stack and out of its parent. |
| `Toolkit.Toolkit.Delete` | libs3dw/widget.c:97-105 | Terminates, deletes exactly the widgets under it, leaves none of them in any parent or on the stack, and keeps every surviving parent's focus on the same widget or on none. |

## Left out

- Rendering, picking, culling, fonts, dialogs, the terminal emulator, HTTP, sockets, System V calls and signals: calls into foreign code.
- libs3d/sei_construct.c:590-865, the choice of the trapezoid a segment enters next and the updates of u0, u1, d0, d1 and usave: the route and the links after each cut come from a function, with the conditions `Trapezoidation.GoodRoute` states (links lead to trapezoids that reach further down and no further up, the trapezoids are valid and not cut yet, none twice).
- Trapezoidation.Trapezoidation.CutWalk: the loop goes along the given route instead of testing each trapezoid's lower end against that of the last one, with the tolerant comparison.
- Trapezoidation.ConstructTrapezoids: the phase limits math_N and math_logstar_n compute from logarithms are a parameter, any ascending sequence from 1 up to n.
- Trapezoidation.Trapezoidation.AddSegment: the code prints a message and goes on with index -1 when a table is full; the model stops before the first step there is no room for. The splitter's tables have room by precondition, one diagonal per trapezoid.
- C_EPS in libs3d/sei_monotone.c: the splitter and the cutter compare exactly, lexicographically; the search structure uses the tolerant comparisons as they are, since its theorems hold for any deterministic test.
- Splitter.Monotone.GetVertexPositions: get_angle is a parameter; the theorems hold for any measure of angles. The four slots of a vertex are a sequence that grows.
- Splitter.Monotone.TriangulateMonotonePolygons: that the splitter's rings all have an entry in `mon`, are one-sided monotone chains and have distinct vertices is a precondition; it depends on the choice of positions by angle and on the neighbour links. `Splitter.Monotone.MonotonateTrapezoids` says when entries are kept and which polygon each trapezoid is entered with.
- Splitter.Monotone.TriangulateSinglePolygon: `endv` zero is replaced by nvert in the code; vertex numbers are positive here, so that case does not arise.
- Whether the contours wind once around the inside (outer contour anti-clockwise, inner ones clockwise): the covering theorem is stated in terms of how often they wind.
- SceneServer.Process.ObjDel: does not cover the requests to notify the MCP, nor the deletion of an object of the MCP itself, which kills a process.
- The MCP's camera and pointer propagation (obj_sys_update), object sizes and the biggest object, clones and vertex, polygon and texture data of objects.
- process_sys_init updates the MCP's objects where the new process's are meant (server/process.c:74-110): the system objects of applications are not part of this model.
- RingRace.AnyInterleaving: the two stores that update an index (libs3d/shm_ringbuf.c:52-53, 78-79) count as one step. The server's own shm_write only prints when space is short and is not modelled.
- RingBuf.RingBuf.ShmWriten: its retry loop, and that of ShmReadn, run without the other side acting; the interleaved theorem is `RingRace.AnyInterleaving`.
- Failed writes on the server that delete processes, allocation failure, time-outs of requests, and 32-bit overflow of counters.
- Mesh.Connections.HandleCon: ids of new 3d objects are parameters, the square roots kept for drawing are left out, and the node table and the parser of the input are not modelled.
- Hash.Table.Find: a compare callback that is equality of keys; that equal elements choose equal buckets in range is a precondition.
- Textures.LoadTex: where a copy would leave the image or the buffer the model stops and says so (`astray`); what the code stores then is not part of this model.
- Textures.LoadTexture: an image of width zero that is not attached divides by zero in the code (libs3d/proto_out.c:1079); the width is positive there by precondition.
- The fragmenting of pushed and loaded vertex, polygon and normal data, whose fragment counts and start indices do not fit (libs3d/proto_out.c:153-154, 916).
- MatrixStack.Current.MyInvert: rounding, NaN and infinities; the matrix is over exact reals.
- Toolkit.Toolkit.AniMate: the requests sent for each step and the rearrangement of surfaces.
- Widget callbacks, visibility flags and events; allocation failure in s3dw_widget_append.
