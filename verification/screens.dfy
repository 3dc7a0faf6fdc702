/** The component and container screens: the three-way decision on the
    query state and the mapping from the API payload to graph nodes and
    edges. */
module Screens {
  import opened Wrappers
  import opened Workspace
  import opened ViewResponse

  /** The two diagram screens that draw an API payload. */
  datatype Screen = ComponentScreen | ContainerScreen

  /** The JSON body of a diagram response as the screen reads it: either list
      may be missing. */
  datatype Payload = Payload(elements: Option<seq<ElementResponse>>,
                             relationships: Option<seq<RelationshipResponse>>)

  /** What the query hook reports. `data` is absent until a body arrived. */
  datatype QueryState = QueryState(isLoading: bool, hasError: bool, data: Option<Payload>)

  datatype Position = Position(x: int, y: int)

  datatype FlowNode = FlowNode(id: string, nodeType: string, data: ElementResponse, position: Position)

  /** `edgeType` is absent when the screen leaves the field out. */
  datatype FlowEdge = FlowEdge(id: string, edgeType: Option<string>, source: string, target: string,
                               animated: bool, edgeLabel: string)

  datatype View =
    | LoadingText
    | ErrorText
    | Graph(nodes: Option<seq<FlowNode>>, edges: Option<seq<FlowEdge>>)

  const Origin := Position(0, 0)

  /** The edge type a screen writes on its edges. */
  function EdgeTypeOf(screen: Screen): Option<string> {
    match screen
    case ComponentScreen => Some("relationship")
    case ContainerScreen => None
  }

  function NodeOf(element: ElementResponse): FlowNode {
    FlowNode(element.id, "element", element, Origin)
  }

  function EdgeOf(screen: Screen, relationship: RelationshipResponse): FlowEdge {
    FlowEdge(relationship.id, EdgeTypeOf(screen), relationship.sourceId, relationship.destinationId,
             true, relationship.description)
  }

  /** `data?.elements?.map(...)`: absent when the payload or its list is. */
  function Nodes(data: Option<Payload>): Option<seq<FlowNode>> {
    if data.None? || data.value.elements.None? then None
    else
      var elements := data.value.elements.value;
      Some(seq(|elements|, k requires 0 <= k < |elements| => NodeOf(elements[k])))
  }

  function Edges(screen: Screen, data: Option<Payload>): Option<seq<FlowEdge>> {
    if data.None? || data.value.relationships.None? then None
    else
      var relationships := data.value.relationships.value;
      Some(seq(|relationships|, k requires 0 <= k < |relationships| => EdgeOf(screen, relationships[k])))
  }

  /** A node draws an element: same id, the element as its data, the
      `element` node type, placed at the origin for the layout to move. */
  predicate DrawsElement(n: FlowNode, e: ElementResponse) {
    n.id == e.id && n.nodeType == "element" && n.data == e && n.position == Origin
  }

  /** An edge draws a relationship: same id, from its source to its
      destination, labelled with its description, animated, with the
      screen's edge type. Dangling ids are passed on unchecked. */
  predicate DrawsRelationship(screen: Screen, ed: FlowEdge, r: RelationshipResponse) {
    && ed.id == r.id && ed.source == r.sourceId && ed.target == r.destinationId
    && ed.edgeLabel == r.description && ed.animated
    && (screen == ComponentScreen ==> ed.edgeType == Some("relationship"))
    && (screen == ContainerScreen ==> ed.edgeType.None?)
  }

  /** The screen's render decision: loading first, then the error, then the
      graph, one node per element and one edge per relationship, in order. */
  function Render(screen: Screen, q: QueryState): (v: View)
    ensures v == LoadingText <==> q.isLoading
    ensures v == ErrorText <==> !q.isLoading && q.hasError
    ensures v.Graph? ==> (v.nodes.None? <==> q.data.None? || q.data.value.elements.None?)
    ensures v.Graph? && v.nodes.Some? ==>
              var elements := q.data.value.elements.value;
              |v.nodes.value| == |elements| &&
              forall k :: 0 <= k < |elements| ==> DrawsElement(v.nodes.value[k], elements[k])
    ensures v.Graph? ==> (v.edges.None? <==> q.data.None? || q.data.value.relationships.None?)
    ensures v.Graph? && v.edges.Some? ==>
              var relationships := q.data.value.relationships.value;
              |v.edges.value| == |relationships| &&
              forall k :: 0 <= k < |relationships| ==> DrawsRelationship(screen, v.edges.value[k], relationships[k])
  {
    if q.isLoading then LoadingText
    else if q.hasError then ErrorText
    else Graph(Nodes(q.data), Edges(screen, q.data))
  }

  /** The elements can be read back from the drawn nodes' data. */
  lemma NodesRecoverElements(elements: seq<ElementResponse>, relationships: Option<seq<RelationshipResponse>>,
                             screen: Screen)
    ensures var v := Render(screen, QueryState(false, false, Some(Payload(Some(elements), relationships))));
            v.Graph? && v.nodes.Some? &&
            seq(|v.nodes.value|, k requires 0 <= k < |v.nodes.value| => v.nodes.value[k].data) == elements
  {
  }

  /** The two screens draw the same nodes and the same edges, except that
      only the component screen types its edges. */
  lemma ScreensDifferOnlyInEdgeType(q: QueryState)
    ensures var c, d := Render(ComponentScreen, q), Render(ContainerScreen, q);
            && (c.Graph? <==> d.Graph?)
            && (c.Graph? ==> c.nodes == d.nodes && (c.edges.Some? <==> d.edges.Some?))
            && (c.Graph? && c.edges.Some? ==>
                  |c.edges.value| == |d.edges.value| &&
                  forall k :: 0 <= k < |c.edges.value| ==>
                    c.edges.value[k] == d.edges.value[k].(edgeType := Some("relationship")))
  {
  }

  /** The JSON body the screens receive for a diagram response. */
  function PayloadOf(d: DiagramResponse): Payload {
    Payload(Some(d.elements), Some(d.relationships))
  }

  /** End to end: the component screen draws one node per element of the
      requested component view and one edge per relationship, with the
      view's ids, in view order, and none of its nodes links further down. */
  lemma ComponentScreenDrawsView(s: Server, id: string)
    requires Components(s, id).Success?
    ensures var views := ViewsAt(s.workspace.staticViews, ComponentLevel);
            var v := views[FindView(views, id).value];
            var g := Render(ComponentScreen, QueryState(false, false, Some(PayloadOf(Components(s, id).value))));
            && g.Graph? && g.nodes.Some? && g.edges.Some?
            && |g.nodes.value| == |v.elements|
            && (forall k :: 0 <= k < |v.elements| ==>
                  g.nodes.value[k].id == v.elements[k].id && g.nodes.value[k].data.viewUrl.None?)
            && |g.edges.value| == |v.relationships|
            && (forall k :: 0 <= k < |v.relationships| ==>
                  && g.edges.value[k].id == v.relationships[k].id
                  && g.edges.value[k].source == v.relationships[k].sourceId
                  && g.edges.value[k].target == v.relationships[k].destinationId)
  {
    var views := ViewsAt(s.workspace.staticViews, ComponentLevel);
    var v := views[FindView(views, id).value];
    var d := Components(s, id).value;
    assert DescribesView(d, v, map[], s.dynamicViewsByElement);
    var g := Render(ComponentScreen, QueryState(false, false, Some(PayloadOf(d))));
    forall k | 0 <= k < |v.elements|
      ensures g.nodes.value[k].id == v.elements[k].id && g.nodes.value[k].data.viewUrl.None?
    {
      assert DrawsElement(g.nodes.value[k], d.elements[k]);
      assert DescribesElement(d.elements[k], v.elements[k], map[], Owner(v.kind).value);
    }
    forall k | 0 <= k < |v.relationships|
      ensures && g.edges.value[k].id == v.relationships[k].id
              && g.edges.value[k].source == v.relationships[k].sourceId
              && g.edges.value[k].target == v.relationships[k].destinationId
    {
      assert DrawsRelationship(ComponentScreen, g.edges.value[k], d.relationships[k]);
      assert DescribesRelationship(d.relationships[k], v.relationships[k]);
    }
  }
}
