# C4 model viewer: verified model of its core logic

The C4 model viewer has two halves. A Spring service reads a Structurizr
workspace and serves one JSON diagram per view. A React Flow front end draws
those diagrams and lets the reader drill down from a system to its
containers and from a container to its components. This project models the
pure logic of both halves in Dafny and proves what it promises:

- **`FloatingEdge`** (`geometry.dfy`): the floating-edge geometry.
  - Node centres.
  - The side an edge leaves a node by. The dominant axis of the centre
    offset picks the side, and ties go to top or bottom.
  - The point on the chosen handle where the edge attaches.
  - The guard that draws no edge when either endpoint node is missing.
- **`Technology`** (`technology.dfy`): `parseTechnology`, with the Java
  semantics it relies on.
  - `String.trim`.
  - `String.split` for the regex ` (A|and) ` and for a comma followed by
    spaces. This covers the leftmost match scan and the removal of
    trailing empty strings.
- **`Workspace`** (`workspace.dfy`): an abstract Structurizr workspace and
  the server's constructor.
  - The four drill-down tables. Each maps an element id to the url of the
    view one level below it.
  - The grouping of dynamic views by the element they describe.
- **`ViewResponse`** (`view_response.dfy`): `isChild`,
  `getElementAssociatedWithView`, `getViewResponse`, and the four diagram
  endpoints with the drill-down table each one passes in.
- **`Screens`** (`screens.dfy`): the component and container screens.
  - The loading / error / graph decision.
  - The mapping of a payload's elements to nodes and of its relationships
    to edges.
- **`Wrappers`** (`wrappers.dfy`): `Option` and `Result`, plus a map
  lookup that returns an `Option`.

Conventions:

- Exceptions are the `Failure` case of a `Result`.
- Coordinates are exact `real`s.
- Strings are `seq<char>`.
- Java `HashMap.put` sequences are folds in which the last put of a key wins.

The model keeps three behaviours of the code that a reader might not expect:

- The edge guard (`FloatingEdge.FloatingEdgeParams`) checks only that both
  nodes exist. It does not check their layout metadata. Width, height and
  absolute position are fields of every `Node`. The chosen handle's
  existence is a precondition. The node component declares all four side
  handles, which discharges it.
- The attachment point lies on the perimeter of the chosen *handle's* box,
  not on the node's border. `EdgeEndpointsOnPerimeter` states it that way.
- The landscape endpoint never returns a diagram. `getElementAssociatedWithView`
  throws for a landscape view. The exception is swallowed to `null`, and
  that `null` is then dereferenced. The model returns `NullPointerException`
  and proves that the endpoint always fails (`LandscapeNeverResponds`).

## Model

| member | source | states |
|---|---|---|
| FloatingEdge.NodeCenter | c4model-viewer/src/FloatingEdge.tsx:57-62 | the centre is equidistant from the node's left and right edges and from its top and bottom edges |
| FloatingEdge.CenterInsideNode | c4model-viewer/src/FloatingEdge.tsx:57-62 | for a node of non-negative size the centre lies inside the node's box |
| FloatingEdge.FloatingEdgeNodeHasAllHandles | c4model-viewer/src/FloatingEdgeNode.tsx:11-14 | a node carrying the four declared source handles has a handle on every side, so the non-null assertion on the handle lookup always holds |
| FloatingEdge.FindHandleIndex | c4model-viewer/src/FloatingEdge.tsx:26-28 | `find` returns the first handle on the requested side: its position matches and no earlier handle's does |
| FloatingEdge.FindHandle | c4model-viewer/src/FloatingEdge.tsx:26-28 | the handle found belongs to the node and sits on the requested side |
| FloatingEdge.HandleCoords | c4model-viewer/src/FloatingEdge.tsx:24-55 | the point is the midpoint of the requested side of the handle's box, offset by the node's absolute position |
| FloatingEdge.SideMidpointOnPerimeter | c4model-viewer/src/FloatingEdge.tsx:30-52 | a side midpoint of a well-formed box lies on that box's perimeter |
| FloatingEdge.ChooseSide | c4model-viewer/src/FloatingEdge.tsx:8-18 | left or right exactly when the horizontal centre distance strictly exceeds the vertical one; left exactly when A is right of B; top exactly when A is below B |
| FloatingEdge.CoincidentCentresChooseBottom | c4model-viewer/src/FloatingEdge.tsx:13-17 | coincident centres choose the bottom side |
| FloatingEdge.ChooseSideFacesOther | c4model-viewer/src/FloatingEdge.tsx:8-18 | both nodes choose the same axis; their sides are opposite unless the centres coincide, when both are bottom |
| FloatingEdge.GetParams | c4model-viewer/src/FloatingEdge.tsx:4-22 | the side is the one chosen from the two centres and the point is that side's midpoint on the node's handle for it |
| FloatingEdge.GetEdgeParams | c4model-viewer/src/FloatingEdge.tsx:65-77 | source and target sides lie on one axis, are opposite unless the centres coincide (then both bottom), and each endpoint is the midpoint of its side on its own handle |
| FloatingEdge.EdgeParamsSymmetric | c4model-viewer/src/FloatingEdge.tsx:65-77 | swapping source and target swaps (sx, sy, sourcePos) with (tx, ty, targetPos) |
| FloatingEdge.EdgeAxisDominance | c4model-viewer/src/FloatingEdge.tsx:8-18 | an edge attaches horizontally exactly when the centres are further apart horizontally than vertically |
| FloatingEdge.FloatingEdgeParams | c4model-viewer/src/FloatingEdge.tsx:82-90 | no edge exactly when the source or the target node is missing from the store; otherwise the edge parameters of the two nodes |
| FloatingEdge.EdgeEndpointsOnPerimeter | c4model-viewer/src/FloatingEdge.tsx:24-55 | with handles of non-negative size, both endpoints lie on the perimeters of their handles |
| Technology.TrimStart | c4model-api/src/main/java/com/cry999/c4modelapi/Main.java:49 | the result is a suffix of the input that is empty or starts with a non-blank character, and every character removed is blank |
| Technology.TrimEnd | c4model-api/src/main/java/com/cry999/c4modelapi/Main.java:49 | the result is a prefix of the input that is empty or ends with a non-blank character, and every character removed is blank |
| Technology.Trim | c4model-api/src/main/java/com/cry999/c4modelapi/Main.java:49-50 | `trim()` is empty exactly for all-blank input, never longer than its input, starts and ends non-blank, and leaves an already trimmed string unchanged; it is the input with a blank prefix and a blank suffix cut off |
| Technology.TrimIdempotent | c4model-api/src/main/java/com/cry999/c4modelapi/Main.java:49 | trimming twice is trimming once |
| Technology.SpaceRunIsSpaces | c4model-api/src/main/java/com/cry999/c4modelapi/Main.java:56-57 | the greedy `\s*` run consists of spaces and stops before a non-space or the end |
| Technology.MatchIsDelimiter | c4model-api/src/main/java/com/cry999/c4modelapi/Main.java:53 | a match found by the scanner is " A ", " and ", or a comma followed by spaces, according to the separator |
| Technology.CommaFreeIffNoMatch | c4model-api/src/main/java/com/cry999/c4modelapi/Main.java:56-57 | the comma separator matches nowhere in a string exactly when the string has no comma |
| Technology.ConjunctionFreeIffNoMatch | c4model-api/src/main/java/com/cry999/c4modelapi/Main.java:53 | the " (A\|and) " separator matches nowhere in a string exactly when " A " and " and " occur nowhere in it |
| Technology.SplitCommaStripsSpaces | c4model-api/src/main/java/com/cry999/c4modelapi/Main.java:56-57 | `split(",\s*")` consumes the whole run of spaces after a comma: no piece after the first starts with a space |
| Technology.ScanRebuilds | c4model-api/src/main/java/com/cry999/c4modelapi/Main.java:53 | the split scan loses nothing: pieces and the cut delimiters, in order, spell the scanned text |
| Technology.ScanDelimiters | c4model-api/src/main/java/com/cry999/c4modelapi/Main.java:53 | every piece but the last is followed by a genuine match of the separator |
| Technology.ScanPiecesSeparatorFree | c4model-api/src/main/java/com/cry999/c4modelapi/Main.java:53 | no piece of the scan contains a match of the separator it was split on |
| Technology.ScanKeepsOtherFree | c4model-api/src/main/java/com/cry999/c4modelapi/Main.java:53-56 | pieces of a text free of another separator stay free of it |
| Technology.SingleSegment | c4model-api/src/main/java/com/cry999/c4modelapi/Main.java:53 | the scan yields a single piece exactly when no match lies ahead, and that piece is the rest of the text |
| Technology.DropTrailingEmpty | c4model-api/src/main/java/com/cry999/c4modelapi/Main.java:53 | the result is a prefix of the input, everything dropped is empty, and a non-empty result ends with a non-empty string |
| Technology.SplitSeparatorFree | c4model-api/src/main/java/com/cry999/c4modelapi/Main.java:53 | no piece `split` returns contains a match of the separator, and a text with no match splits into itself alone |
| Technology.SplitScanRebuilds | c4model-api/src/main/java/com/cry999/c4modelapi/Main.java:53 | the scan under `split` spells its input and cuts only at matches |
| Technology.SplitIsScanPrefix | c4model-api/src/main/java/com/cry999/c4modelapi/Main.java:53 | `split` keeps the scan's pieces in order, dropping only a run of empty pieces at the end |
| Technology.SplitKeepsOtherFree | c4model-api/src/main/java/com/cry999/c4modelapi/Main.java:53-56 | splitting a text free of another separator gives pieces free of it |
| Technology.SplitAllSeparatorFree | c4model-api/src/main/java/com/cry999/c4modelapi/Main.java:54-57 | no piece of the flattened result contains a match of the separator |
| Technology.FlattenAppend | c4model-api/src/main/java/com/cry999/c4modelapi/Main.java:54-57 | appending lists one after the other in a loop distributes over concatenation of the input |
| Technology.SplitAllKeepsOtherFree | c4model-api/src/main/java/com/cry999/c4modelapi/Main.java:54-57 | splitting every string keeps them free of another separator |
| Technology.SplitAllAppend | c4model-api/src/main/java/com/cry999/c4modelapi/Main.java:54-57 | splitting a concatenation of lists is concatenating the splits |
| Technology.SplitAllInPlace | c4model-api/src/main/java/com/cry999/c4modelapi/Main.java:54-57 | each string's pieces sit between the pieces of the strings before it and after it |
| Technology.ParseTechnology | c4model-api/src/main/java/com/cry999/c4modelapi/Main.java:45-60 | absent exactly for absent or blank input; no returned piece has a comma or an occurrence of " A " or " and "; a trimmed input with none of them gives just itself |
| Technology.ParseTechnologyInOrder | c4model-api/src/main/java/com/cry999/c4modelapi/Main.java:53-58 | for non-blank input the result holds the comma pieces of each " A "/" and " piece in place: after those of the pieces before it and before those of the pieces after it; every comma piece but the first of each has lost the spaces after its comma |
| Workspace.Owner | c4model-api/src/main/java/com/cry999/c4modelapi/Main.java:270-281 | a view has an owning element exactly when it is not a landscape view |
| Workspace.ViewsAt | c4model-api/src/main/java/com/cry999/c4modelapi/Main.java:69 | a view is selected exactly when it is in the workspace and of the requested type |
| Workspace.ViewsAtAppend | c4model-api/src/main/java/com/cry999/c4modelapi/Main.java:69 | selection keeps the workspace order of the views |
| Workspace.ViewsBelowLandscapeOwned | c4model-api/src/main/java/com/cry999/c4modelapi/Main.java:70 | context, container and component views all have an owning element, so `belongsTo.getId()` is never reached on null |
| Workspace.PutAll | c4model-api/src/main/java/com/cry999/c4modelapi/Main.java:71 | after a run of puts, a key is present exactly when it was before or some put used it |
| Workspace.PutAllUntouched | c4model-api/src/main/java/com/cry999/c4modelapi/Main.java:71 | a key no put touches keeps its value |
| Workspace.PutAllLastWins | c4model-api/src/main/java/com/cry999/c4modelapi/Main.java:71 | a key holds the value of its last put |
| Workspace.LinksDrillDown | c4model-api/src/main/java/com/cry999/c4modelapi/Main.java:68-82 | an element id has a url exactly when some view belongs to that element, and the url names the last such view |
| Workspace.DeploymentLinks | c4model-api/src/main/java/com/cry999/c4modelapi/Main.java:83-87 | the table is built exactly when every deployment view is scoped to a software system; otherwise a NullPointerException |
| Workspace.DynamicStepsLastWins | c4model-api/src/main/java/com/cry999/c4modelapi/Main.java:92-95 | a dynamic view's step table maps each order to the relationship of its last step with that order |
| Workspace.GroupDynamicViews | c4model-api/src/main/java/com/cry999/c4modelapi/Main.java:88-98 | an element has a group exactly when it had one before or some dynamic view describes it |
| Workspace.GroupingUntouched | c4model-api/src/main/java/com/cry999/c4modelapi/Main.java:88-98 | an entry no dynamic view rewrites keeps its value |
| Workspace.GroupingLastWins | c4model-api/src/main/java/com/cry999/c4modelapi/Main.java:88-98 | a dynamic view is grouped under its element and key unless a later view has the same element and key |
| Workspace.GroupingKeys | c4model-api/src/main/java/com/cry999/c4modelapi/Main.java:88-98 | an (element, key) pair is grouped exactly when it was before or some dynamic view has that element and key |
| Workspace.LevelLinksDrillDown | c4model-api/src/main/java/com/cry999/c4modelapi/Main.java:68-81 | a table built from the context, container or component views has an entry for an element exactly when a view of that type belongs to it |
| Workspace.StartDrillDown | c4model-api/src/main/java/com/cry999/c4modelapi/Main.java:68-81 | after construction, an element has a context, container or component link exactly when some view of that type belongs to it |
| Workspace.Start | c4model-api/src/main/java/com/cry999/c4modelapi/Main.java:62-99 | construction fails exactly when a deployment view has no software system; otherwise the server keeps the workspace and groups dynamic views under exactly the elements they describe |
| ViewResponse.IsChild | c4model-api/src/main/java/com/cry999/c4modelapi/Main.java:283-289 | false for an element without a parent; otherwise true exactly when the parent's id is the given id |
| ViewResponse.ElementAssociatedWithView | c4model-api/src/main/java/com/cry999/c4modelapi/Main.java:270-281 | fails with "system landscape view belongs no-where" exactly for a landscape view; otherwise returns the view's software system or container |
| ViewResponse.FindView | c4model-api/src/main/java/com/cry999/c4modelapi/Main.java:208-209 | the index of the first view with the key, or none exactly when no view has it |
| ViewResponse.GetViewResponse | c4model-api/src/main/java/com/cry999/c4modelapi/Main.java:204-268 | "view was not found" exactly when no view has the key; NullPointerException exactly when the first match is a landscape view; otherwise one record per element and per relationship, in view order, ids copied, url from the link table, layout exactly when the view has one |
| ViewResponse.LandscapeNeverResponds | c4model-api/src/main/java/com/cry999/c4modelapi/Main.java:184-187 | the landscape endpoint always fails, with NullPointerException exactly when a landscape view has the key |
| ViewResponse.EndpointLinkTables | c4model-api/src/main/java/com/cry999/c4modelapi/Main.java:189-197 | context diagrams take their urls from the container table and container diagrams from the component table |
| ViewResponse.ComponentsHaveNoViewUrl | c4model-api/src/main/java/com/cry999/c4modelapi/Main.java:199-202 | no element of a component diagram carries a view url |
| ViewResponse.ContextsRespondWhenFound | c4model-api/src/main/java/com/cry999/c4modelapi/Main.java:189-192 | the context endpoint answers exactly when some context view has the key |
| ViewResponse.ContextUrls | c4model-api/src/main/java/com/cry999/c4modelapi/Main.java:189-192 | given a container table built from some container views, an element of a context diagram has a url exactly when one of those views belongs to it, and the url names the last one |
| ViewResponse.ContextDrillDown | c4model-api/src/main/java/com/cry999/c4modelapi/Main.java:73-77 | for a started server, an element of an answered context diagram has a url exactly when a container view belongs to it, and the url is "/container/" followed by the last such view's key |
| Screens.Render | c4model-viewer/src/ComponentView.tsx:20-36 | loading is shown exactly while loading, the error exactly when not loading but failed; otherwise a missing list stays missing, and each present list becomes one node per element or one edge per relationship, in order, with ids, endpoints and labels copied |
| Screens.NodesRecoverElements | c4model-viewer/src/ComponentView.tsx:23-28 | the nodes' data, read back in order, are the payload's elements |
| Screens.ScreensDifferOnlyInEdgeType | c4model-viewer/src/Container.tsx:21-36 | the container screen makes the same decision and the same nodes as the component screen, and the same edges except that they carry no type |
| Screens.ComponentScreenDrawsView | c4model-viewer/src/ComponentView.tsx:23-36 | for an answered component request, the screen draws one node per element and one edge per relationship of the view, in view order, with its ids and endpoints, and no node links further down |

## Left out

- Rendering is not modelled: the bezier path, `BaseEdge` and the label renderer are third-party drawing code.
- Diagram layout is not modelled. The ELK layered layout in `Diagram.tsx` is an external library. The fixed 200×100 node size it passes in is not modelled either.
- HTTP is not modelled: `fetch`, `useQuery`, routing, the Spring annotations, `main` and CORS. Each endpoint is a function of the server state and the path id, and the screen receives the query state as a value.
- DSL parsing and file reading are not modelled. The Structurizr workspace is abstracted to plain datatypes, and views, elements and relationships are sequences in the order the library's collections yield them.
- The reflective `getTechnology` lookup is not modelled. Technology is an optional string on the element, and the wrapped reflection exception is out of scope.
- The "unknown view type" exception in `getElementAssociatedWithView` is not modelled. The four view kinds are exhaustive in the model, so that branch cannot be reached.
- JavaScript numbers are IEEE doubles, but the model uses exact reals. A missing `width`, `height` or `positionAbsolute` is not modelled, because React Flow sets them on every node it measures.
- `views()`, `allLandscapes()` and the view-list records are not modelled. They are listing endpoints outside the drill-down core.
- The deployment-view table is built, including its failure case, but no endpoint in the core reads it.
- No lemma states the landscape endpoint's pairing with the context table (`ViewResponse.Landscape` passes it in), because that endpoint never answers and the pairing cannot be observed.
- Screens.Render: node data is the element record itself, not a shallow copy of a JSON object, since the model has no object identity.
- Screens.Render: for the container screen, the edge type that React Flow fills in from the diagram's default edge options is not modelled. The model records only that the screen leaves the type out.
