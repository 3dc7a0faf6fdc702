/** Floating-edge attachment geometry: where an edge between two laid-out
    nodes leaves the source and enters the target. Coordinates are exact
    reals; the viewer computes the same expressions on IEEE doubles. */
module FloatingEdge {
  import opened Wrappers

  /** The four sides a handle can sit on. */
  datatype Position = Left | Top | Right | Bottom

  datatype Point = Point(x: real, y: real)

  /** The measured bounds of one source handle, relative to its node's
      top-left corner. */
  datatype Handle = Handle(position: Position, x: real, y: real, width: real, height: real)

  /** A node as the diagram store holds it after layout: absolute top-left
      corner, measured size and the bounds of its source handles. */
  datatype Node = Node(positionAbsolute: Point, width: real, height: real, handles: seq<Handle>)

  /** An axis-aligned box in absolute coordinates. */
  datatype Box = Box(left: real, top: real, right: real, bottom: real)

  /** What `getEdgeParams` returns. */
  datatype EdgeParams = EdgeParams(sx: real, sy: real, tx: real, ty: real,
                                   sourcePos: Position, targetPos: Position)

  /** One endpoint: the attachment point and the side it sits on. */
  datatype Attachment = Attachment(x: real, y: real, position: Position)

  function Abs(r: real): real {
    if r < 0.0 then -r else r
  }

  predicate IsHorizontal(p: Position) {
    p == Left || p == Right
  }

  function Opposite(p: Position): Position {
    match p
    case Left => Right
    case Right => Left
    case Top => Bottom
    case Bottom => Top
  }

  /** The box a node occupies. */
  function NodeBox(n: Node): Box {
    Box(n.positionAbsolute.x, n.positionAbsolute.y,
        n.positionAbsolute.x + n.width, n.positionAbsolute.y + n.height)
  }

  /** `getNodeCenter`: the midpoint of the node's box. */
  function NodeCenter(n: Node): (c: Point)
    ensures c.x - NodeBox(n).left == NodeBox(n).right - c.x
    ensures c.y - NodeBox(n).top == NodeBox(n).bottom - c.y
  {
    Point(n.positionAbsolute.x + n.width / 2.0, n.positionAbsolute.y + n.height / 2.0)
  }

  /** A node with a non-negative size contains its own centre. */
  lemma CenterInsideNode(n: Node)
    requires n.width >= 0.0 && n.height >= 0.0
    ensures var c, b := NodeCenter(n), NodeBox(n);
            b.left <= c.x <= b.right && b.top <= c.y <= b.bottom
  {
  }

  /** Whether the node has a source handle on side `p`. */
  predicate HasHandle(n: Node, p: Position) {
    exists i :: 0 <= i < |n.handles| && n.handles[i].position == p
  }

  predicate HasAllHandles(n: Node) {
    HasHandle(n, Left) && HasHandle(n, Top) && HasHandle(n, Right) && HasHandle(n, Bottom)
  }

  /** The handle sides a floating-edge node declares, in declaration order. */
  const DeclaredHandleSides: seq<Position> := [Top, Right, Bottom, Left]

  /** A node rendered by the floating-edge node component: one measured handle
      per declared side. */
  predicate IsFloatingEdgeNode(n: Node) {
    |n.handles| == |DeclaredHandleSides| &&
    forall i :: 0 <= i < |n.handles| ==> n.handles[i].position == DeclaredHandleSides[i]
  }

  /** Every node rendered by the floating-edge node component has a handle on
      every side, so the handle lookup never comes back empty for it. */
  lemma FloatingEdgeNodeHasAllHandles(n: Node)
    requires IsFloatingEdgeNode(n)
    ensures HasAllHandles(n)
  {
    assert n.handles[0].position == Top;
    assert n.handles[1].position == Right;
    assert n.handles[2].position == Bottom;
    assert n.handles[3].position == Left;
  }

  /** `handleBounds.source.find(h => h.position === p)`: the first handle on side `p`. */
  function FindHandleIndex(hs: seq<Handle>, p: Position): (i: nat)
    requires exists k :: 0 <= k < |hs| && hs[k].position == p
    ensures i < |hs| && hs[i].position == p
    ensures forall j :: 0 <= j < i ==> hs[j].position != p
  {
    if hs[0].position == p then 0
    else
      assert exists k :: 0 <= k < |hs[1..]| && hs[1..][k].position == p by {
        var k :| 0 <= k < |hs| && hs[k].position == p;
        assert hs[1..][k - 1] == hs[k];
      }
      1 + FindHandleIndex(hs[1..], p)
  }

  function FindHandle(n: Node, p: Position): (h: Handle)
    requires HasHandle(n, p)
    ensures h in n.handles && h.position == p
  {
    n.handles[FindHandleIndex(n.handles, p)]
  }

  /** A handle's box in absolute coordinates: node origin plus the handle's
      relative bounds. */
  function HandleBox(n: Node, h: Handle): Box {
    var left := n.positionAbsolute.x + h.x;
    var top := n.positionAbsolute.y + h.y;
    Box(left, top, left + h.width, top + h.height)
  }

  /** The midpoint of side `p` of box `b`. */
  predicate AtSideMidpoint(x: real, y: real, b: Box, p: Position) {
    match p
    case Left => x == b.left && 2.0 * y == b.top + b.bottom
    case Right => x == b.right && 2.0 * y == b.top + b.bottom
    case Top => y == b.top && 2.0 * x == b.left + b.right
    case Bottom => y == b.bottom && 2.0 * x == b.left + b.right
  }

  /** On the boundary of a box, and not strictly inside nor outside it. */
  predicate OnPerimeter(x: real, y: real, b: Box) {
    b.left <= x <= b.right && b.top <= y <= b.bottom &&
    (x == b.left || x == b.right || y == b.top || y == b.bottom)
  }

  /** `getHandleCoordsByPosition`: the midpoint of the handle's outer side.
      The source looks the handle up with a non-null assertion, so the handle
      must exist. */
  function HandleCoords(n: Node, p: Position): (pt: Point)
    requires HasHandle(n, p)
    ensures AtSideMidpoint(pt.x, pt.y, HandleBox(n, FindHandle(n, p)), p)
  {
    var h := FindHandle(n, p);
    var offsetX := match p
      case Left => 0.0
      case Right => h.width
      case _ => h.width / 2.0;
    var offsetY := match p
      case Top => 0.0
      case Bottom => h.height
      case _ => h.height / 2.0;
    Point(n.positionAbsolute.x + h.x + offsetX, n.positionAbsolute.y + h.y + offsetY)
  }

  /** A side midpoint of a box with non-negative size lies on the box's perimeter. */
  lemma SideMidpointOnPerimeter(x: real, y: real, b: Box, p: Position)
    requires b.left <= b.right && b.top <= b.bottom
    requires AtSideMidpoint(x, y, b, p)
    ensures OnPerimeter(x, y, b)
  {
  }

  /** The side of node A an edge towards node B attaches to, given both
      centres: the axis with the strictly larger centre distance wins
      horizontally, ties go vertical; the side then faces B, and equal
      coordinates fall to Right or Bottom. */
  function ChooseSide(a: Point, b: Point): (p: Position)
    ensures IsHorizontal(p) <==> Abs(a.x - b.x) > Abs(a.y - b.y)
    ensures p == Left <==> IsHorizontal(p) && a.x > b.x
    ensures p == Top <==> !IsHorizontal(p) && a.y > b.y
  {
    if Abs(a.x - b.x) > Abs(a.y - b.y) then
      if a.x > b.x then Left else Right
    else
      if a.y > b.y then Top else Bottom
  }

  /** When the centres coincide the edge attaches at the bottom. */
  lemma CoincidentCentresChooseBottom(a: Point, b: Point)
    requires a == b
    ensures ChooseSide(a, b) == Bottom
  {
  }

  /** The side chosen from A's point of view and the side chosen from B's
      point of view are on the same axis and face each other, except when
      the centres coincide. */
  lemma ChooseSideFacesOther(a: Point, b: Point)
    ensures IsHorizontal(ChooseSide(a, b)) == IsHorizontal(ChooseSide(b, a))
    ensures a != b ==> ChooseSide(b, a) == Opposite(ChooseSide(a, b))
    ensures a == b ==> ChooseSide(a, b) == Bottom && ChooseSide(b, a) == Bottom
  {
    assert Abs(a.x - b.x) == Abs(b.x - a.x);
    assert Abs(a.y - b.y) == Abs(b.y - a.y);
    if a != b && !(Abs(a.x - b.x) > Abs(a.y - b.y)) {
      assert a.y != b.y;
    }
  }

  /** `getParams`: where node A attaches for an edge to node B. */
  function GetParams(a: Node, b: Node): (r: Attachment)
    requires HasHandle(a, ChooseSide(NodeCenter(a), NodeCenter(b)))
    ensures r.position == ChooseSide(NodeCenter(a), NodeCenter(b))
    ensures AtSideMidpoint(r.x, r.y, HandleBox(a, FindHandle(a, r.position)), r.position)
  {
    var p := ChooseSide(NodeCenter(a), NodeCenter(b));
    var pt := HandleCoords(a, p);
    Attachment(pt.x, pt.y, p)
  }

  /** The handle requirement of `getEdgeParams`: each endpoint has a handle on
      the side it will attach to. */
  predicate CanAttach(source: Node, target: Node) {
    HasHandle(source, ChooseSide(NodeCenter(source), NodeCenter(target))) &&
    HasHandle(target, ChooseSide(NodeCenter(target), NodeCenter(source)))
  }

  /** `getEdgeParams`: both endpoints of the edge from `source` to `target`. */
  function GetEdgeParams(source: Node, target: Node): (e: EdgeParams)
    requires CanAttach(source, target)
    ensures e.sourcePos == ChooseSide(NodeCenter(source), NodeCenter(target))
    ensures e.targetPos == ChooseSide(NodeCenter(target), NodeCenter(source))
    ensures IsHorizontal(e.sourcePos) == IsHorizontal(e.targetPos)
    ensures NodeCenter(source) != NodeCenter(target) ==> e.targetPos == Opposite(e.sourcePos)
    ensures NodeCenter(source) == NodeCenter(target) ==> e.sourcePos == Bottom && e.targetPos == Bottom
    ensures AtSideMidpoint(e.sx, e.sy, HandleBox(source, FindHandle(source, e.sourcePos)), e.sourcePos)
    ensures AtSideMidpoint(e.tx, e.ty, HandleBox(target, FindHandle(target, e.targetPos)), e.targetPos)
  {
    ChooseSideFacesOther(NodeCenter(source), NodeCenter(target));
    var s := GetParams(source, target);
    var t := GetParams(target, source);
    EdgeParams(s.x, s.y, t.x, t.y, s.position, t.position)
  }

  function Reverse(e: EdgeParams): EdgeParams {
    EdgeParams(e.tx, e.ty, e.sx, e.sy, e.targetPos, e.sourcePos)
  }

  /** Reversing the edge swaps its two endpoints and nothing else. */
  lemma EdgeParamsSymmetric(source: Node, target: Node)
    requires CanAttach(source, target)
    ensures CanAttach(target, source)
    ensures GetEdgeParams(target, source) == Reverse(GetEdgeParams(source, target))
  {
  }

  /** The edge leaves horizontally exactly when the horizontal centre distance
      strictly exceeds the vertical one. */
  lemma EdgeAxisDominance(source: Node, target: Node)
    requires CanAttach(source, target)
    ensures var cs, ct := NodeCenter(source), NodeCenter(target);
            IsHorizontal(GetEdgeParams(source, target).sourcePos) <==>
              Abs(cs.x - ct.x) > Abs(cs.y - ct.y)
  {
  }

  /** The rendered component: no edge unless both endpoint nodes are in the
      store. Every node in the store is a floating-edge node. */
  function FloatingEdgeParams(store: map<string, Node>, source: string, target: string): (r: Option<EdgeParams>)
    requires forall id :: id in store ==> IsFloatingEdgeNode(store[id])
    ensures r.None? <==> source !in store || target !in store
    ensures r.Some? ==> CanAttach(store[source], store[target]) &&
                        r.value == GetEdgeParams(store[source], store[target])
  {
    if source !in store || target !in store then None
    else
      FloatingEdgeNodeHasAllHandles(store[source]);
      FloatingEdgeNodeHasAllHandles(store[target]);
      Some(GetEdgeParams(store[source], store[target]))
  }

  /** With non-negative handle sizes both endpoints sit on the perimeter of
      their handle's box. */
  lemma EdgeEndpointsOnPerimeter(source: Node, target: Node)
    requires CanAttach(source, target)
    requires forall h :: h in source.handles ==> h.width >= 0.0 && h.height >= 0.0
    requires forall h :: h in target.handles ==> h.width >= 0.0 && h.height >= 0.0
    ensures var e := GetEdgeParams(source, target);
            OnPerimeter(e.sx, e.sy, HandleBox(source, FindHandle(source, e.sourcePos))) &&
            OnPerimeter(e.tx, e.ty, HandleBox(target, FindHandle(target, e.targetPos)))
  {
    var e := GetEdgeParams(source, target);
    SideMidpointOnPerimeter(e.sx, e.sy, HandleBox(source, FindHandle(source, e.sourcePos)), e.sourcePos);
    SideMidpointOnPerimeter(e.tx, e.ty, HandleBox(target, FindHandle(target, e.targetPos)), e.targetPos);
  }
}
