/** The API's diagram endpoints: `getViewResponse`, the records it returns,
    and which drill-down table each endpoint pairs with its views. */
module ViewResponse {
  import opened Wrappers
  import opened Workspace
  import Technology

  datatype ElementResponse = ElementResponse(id: string, name: string, description: string,
                                             viewUrl: Option<string>, isChild: bool,
                                             technologies: Option<seq<string>>, tags: set<string>)

  datatype RelationshipResponse = RelationshipResponse(id: string, sourceId: string, destinationId: string,
                                                       description: string,
                                                       technologies: Option<seq<string>>, tags: set<string>)

  datatype LayoutResponse = LayoutResponse(direction: string, rankSeparation: int, nodeSeparation: int)

  datatype DiagramResponse = DiagramResponse(id: string, name: string, title: string,
                                             layout: Option<LayoutResponse>,
                                             elements: seq<ElementResponse>,
                                             relationships: seq<RelationshipResponse>,
                                             dynamicViews: Option<map<string, DynamicViewResponse>>)

  /** `isChild`: whether the element's parent is the element with id `parentId`. */
  function IsChild(parentId: string, maybeChild: Element): (b: bool)
    ensures maybeChild.parentId.None? ==> !b
    ensures b <==> maybeChild.parentId == Some(parentId)
  {
    match maybeChild.parentId
    case None => false
    case Some(parent) => parent == parentId
  }

  /** `getElementAssociatedWithView`: the id of the element a view belongs to.
      A landscape view belongs to nothing, which throws. */
  function ElementAssociatedWithView(v: StaticView): (r: Result<string, Exception>)
    ensures r.Failure? <==> LevelOf(v.kind) == LandscapeLevel
    ensures r.Failure? ==> r.error == RuntimeException("system landscape view belongs no-where")
    ensures r.Success? ==> Owner(v.kind) == Some(r.value)
  {
    match v.kind
    case SystemLandscape => Failure(RuntimeException("system landscape view belongs no-where"))
    case SystemContext(system) => Success(system)
    case Container(system) => Success(system)
    case Component(container) => Success(container)
  }

  /** The index of the first view whose key is `id`. */
  function FindView(views: seq<StaticView>, id: string): (r: Option<nat>)
    ensures r.None? <==> forall i :: 0 <= i < |views| ==> views[i].key != id
    ensures r.Some? ==> r.value < |views| && views[r.value].key == id &&
                        forall j :: 0 <= j < r.value ==> views[j].key != id
  {
    if views == [] then None
    else if views[0].key == id then Some(0)
    else
      match FindView(views[1..], id)
      case None => None
      case Some(i) => Some(i + 1)
  }

  function RelationshipResponseOf(r: Relationship): RelationshipResponse {
    RelationshipResponse(r.id, r.sourceId, r.destinationId, r.description,
                         Technology.ParseTechnology(r.technology), r.tags)
  }

  function ElementResponseOf(e: Element, links: map<string, string>, owner: string): ElementResponse {
    ElementResponse(e.id, e.name, e.description, Get(links, e.id), IsChild(owner, e),
                    Technology.ParseTechnology(e.technology), e.tags)
  }

  function LayoutOf(layout: Option<AutomaticLayout>): Option<LayoutResponse> {
    match layout
    case None => None
    case Some(l) => Some(LayoutResponse(l.rankDirection, l.rankSeparation, l.nodeSeparation))
  }

  /** The response for a view that belongs to the element `owner`. */
  function DiagramOf(v: StaticView, owner: string, links: map<string, string>, dynamic: Grouping): DiagramResponse {
    DiagramResponse(
      v.key, v.name, v.title, LayoutOf(v.automaticLayout),
      seq(|v.elements|, k requires 0 <= k < |v.elements| => ElementResponseOf(v.elements[k], links, owner)),
      seq(|v.relationships|, k requires 0 <= k < |v.relationships| => RelationshipResponseOf(v.relationships[k])),
      Get(dynamic, Some(owner)))
  }

  /** An element record describes its element: fields copied, the view url
      taken from the link table, `isChild` relative to the view's owner. */
  predicate DescribesElement(r: ElementResponse, e: Element, links: map<string, string>, owner: string) {
    && r.id == e.id && r.name == e.name && r.description == e.description && r.tags == e.tags
    && (r.viewUrl.Some? <==> e.id in links)
    && (r.viewUrl.Some? ==> r.viewUrl.value == links[e.id])
    && (r.isChild <==> e.parentId == Some(owner))
    && r.technologies == Technology.ParseTechnology(e.technology)
  }

  predicate DescribesRelationship(r: RelationshipResponse, rel: Relationship) {
    && r.id == rel.id && r.sourceId == rel.sourceId && r.destinationId == rel.destinationId
    && r.description == rel.description && r.tags == rel.tags
    && r.technologies == Technology.ParseTechnology(rel.technology)
  }

  /** A diagram response describes a view: one record per element and per
      relationship, in view order, a layout exactly when the view has one,
      and the dynamic views grouped under the view's owner. */
  predicate DescribesView(d: DiagramResponse, v: StaticView, links: map<string, string>, dynamic: Grouping) {
    && Owner(v.kind).Some?
    && d.id == v.key && d.name == v.name && d.title == v.title
    && (d.layout.None? <==> v.automaticLayout.None?)
    && (d.layout.Some? ==>
          && d.layout.value.direction == v.automaticLayout.value.rankDirection
          && d.layout.value.rankSeparation == v.automaticLayout.value.rankSeparation
          && d.layout.value.nodeSeparation == v.automaticLayout.value.nodeSeparation)
    && |d.elements| == |v.elements|
    && (forall k :: 0 <= k < |v.elements| ==>
          DescribesElement(d.elements[k], v.elements[k], links, Owner(v.kind).value))
    && |d.relationships| == |v.relationships|
    && (forall k :: 0 <= k < |v.relationships| ==>
          DescribesRelationship(d.relationships[k], v.relationships[k]))
    && (d.dynamicViews.Some? <==> Owner(v.kind) in dynamic)
    && (d.dynamicViews.Some? ==> d.dynamicViews.value == dynamic[Owner(v.kind)])
  }

  lemma DiagramOfDescribes(v: StaticView, owner: string, links: map<string, string>, dynamic: Grouping)
    requires Owner(v.kind) == Some(owner)
    ensures DescribesView(DiagramOf(v, owner, links, dynamic), v, links, dynamic)
  {
  }

  /** `getViewResponse`: the first view whose key is `id`, described with
      drill-down links from `links`. No such view throws "view was not
      found"; a landscape view makes the associated element null, which is
      then dereferenced. */
  function GetViewResponse(views: seq<StaticView>, links: map<string, string>, dynamic: Grouping, id: string)
    : (r: Result<DiagramResponse, Exception>)
    ensures r.Failure? <==>
              FindView(views, id).None? || LevelOf(views[FindView(views, id).value].kind) == LandscapeLevel
    ensures FindView(views, id).None? ==> r == Failure(RuntimeException("view was not found: " + id))
    ensures FindView(views, id).Some? && LevelOf(views[FindView(views, id).value].kind) == LandscapeLevel ==>
              r == Failure(NullPointerException)
    ensures r.Success? ==> DescribesView(r.value, views[FindView(views, id).value], links, dynamic)
  {
    match FindView(views, id)
    case None => Failure(RuntimeException("view was not found: " + id))
    case Some(i) =>
      match ElementAssociatedWithView(views[i])
      case Failure(_) => Failure(NullPointerException)
      case Success(owner) =>
        DiagramOfDescribes(views[i], owner, links, dynamic);
        Success(DiagramOf(views[i], owner, links, dynamic))
  }

  /** GET /landscapes/{id}: landscape views, linked to context views. */
  function Landscape(s: Server, id: string): Result<DiagramResponse, Exception> {
    GetViewResponse(ViewsAt(s.workspace.staticViews, LandscapeLevel), s.elementHasContextView,
                    s.dynamicViewsByElement, id)
  }

  /** GET /contexts/{id}: context views, linked to container views. */
  function Contexts(s: Server, id: string): Result<DiagramResponse, Exception> {
    GetViewResponse(ViewsAt(s.workspace.staticViews, ContextLevel), s.elementHasContainerView,
                    s.dynamicViewsByElement, id)
  }

  /** GET /containers/{id}: container views, linked to component views. */
  function Containers(s: Server, id: string): Result<DiagramResponse, Exception> {
    GetViewResponse(ViewsAt(s.workspace.staticViews, ContainerLevel), s.elementHasComponentView,
                    s.dynamicViewsByElement, id)
  }

  /** GET /components/{id}: component views, with an empty link table. */
  function Components(s: Server, id: string): Result<DiagramResponse, Exception> {
    GetViewResponse(ViewsAt(s.workspace.staticViews, ComponentLevel), map[], s.dynamicViewsByElement, id)
  }

  /** The landscape endpoint never answers: either no landscape view has the
      key, or the one that has it belongs to no element and the response
      assembly dereferences that missing element. */
  lemma LandscapeNeverResponds(s: Server, id: string)
    ensures Landscape(s, id).Failure?
    ensures Landscape(s, id) == Failure(NullPointerException) <==>
              exists v :: v in s.workspace.staticViews && LevelOf(v.kind) == LandscapeLevel && v.key == id
  {
    var views := ViewsAt(s.workspace.staticViews, LandscapeLevel);
    match FindView(views, id)
    case None =>
      forall v | v in s.workspace.staticViews && LevelOf(v.kind) == LandscapeLevel
        ensures v.key != id
      {
        assert v in views;
      }
    case Some(i) =>
      assert views[i] in views;
      assert ElementAssociatedWithView(views[i]).Failure?;
  }

  /** Each endpoint draws its view urls from the table one level down: a
      context diagram links to container views, a container diagram to
      component views. */
  lemma EndpointLinkTables(s: Server, id: string)
    ensures Contexts(s, id).Success? ==>
              forall k :: 0 <= k < |Contexts(s, id).value.elements| ==>
                Contexts(s, id).value.elements[k].viewUrl ==
                  Get(s.elementHasContainerView, Contexts(s, id).value.elements[k].id)
    ensures Containers(s, id).Success? ==>
              forall k :: 0 <= k < |Containers(s, id).value.elements| ==>
                Containers(s, id).value.elements[k].viewUrl ==
                  Get(s.elementHasComponentView, Containers(s, id).value.elements[k].id)
  {
  }

  /** Component diagrams offer no drill-down. */
  lemma ComponentsHaveNoViewUrl(s: Server, id: string)
    ensures Components(s, id).Success? ==>
              forall k :: 0 <= k < |Components(s, id).value.elements| ==>
                Components(s, id).value.elements[k].viewUrl.None?
  {
  }

  /** A context view responds exactly when a context view has the key. */
  lemma ContextsRespondWhenFound(s: Server, id: string)
    ensures Contexts(s, id).Success? <==>
              exists v :: v in s.workspace.staticViews && LevelOf(v.kind) == ContextLevel && v.key == id
  {
    var views := ViewsAt(s.workspace.staticViews, ContextLevel);
    var found := FindView(views, id);
    if found.Some? {
      assert views[found.value] in views;
    } else {
      forall v | v in s.workspace.staticViews && LevelOf(v.kind) == ContextLevel
        ensures v.key != id
      {
        assert v in views;
      }
    }
  }

  /** A url looked up in a drill-down table names the last view that belongs
      to the element, and there is one exactly when some view does. */
  lemma DrillDownUrl(views: seq<StaticView>, prefix: string, id: string, url: Option<string>)
    requires AllOwned(views) && url == Get(Links(views, prefix), id)
    ensures url.Some? <==> exists i :: 0 <= i < |views| && Owner(views[i].kind) == Some(id)
    ensures forall i :: 0 <= i < |views| && Owner(views[i].kind) == Some(id) &&
                        (forall j :: i < j < |views| ==> Owner(views[j].kind) != Some(id)) ==>
                          url == Some(prefix + views[i].key)
  {
    LinksDrillDown(views, prefix, id);
  }

  /** A context diagram's urls, given a server whose container table is
      built from `containers`. */
  lemma ContextUrls(s: Server, id: string, containers: seq<StaticView>)
    requires AllOwned(containers) && s.elementHasContainerView == Links(containers, "/container/")
    ensures Contexts(s, id).Success? ==>
              forall e :: e in Contexts(s, id).value.elements ==>
                && (e.viewUrl.Some? <==> exists i :: 0 <= i < |containers| && Owner(containers[i].kind) == Some(e.id))
                && forall i :: 0 <= i < |containers| && Owner(containers[i].kind) == Some(e.id) &&
                               (forall j :: i < j < |containers| ==> Owner(containers[j].kind) != Some(e.id)) ==>
                                 e.viewUrl == Some("/container/" + containers[i].key)
  {
    var r := Contexts(s, id);
    if r.Success? {
      forall e | e in r.value.elements
        ensures && (e.viewUrl.Some? <==> exists i :: 0 <= i < |containers| && Owner(containers[i].kind) == Some(e.id))
                && forall i :: 0 <= i < |containers| && Owner(containers[i].kind) == Some(e.id) &&
                               (forall j :: i < j < |containers| ==> Owner(containers[j].kind) != Some(e.id)) ==>
                                 e.viewUrl == Some("/container/" + containers[i].key)
      {
        assert e.viewUrl == Get(s.elementHasContainerView, e.id) by {
          EndpointLinkTables(s, id);
          var k :| 0 <= k < |r.value.elements| && r.value.elements[k] == e;
        }
        DrillDownUrl(containers, "/container/", e.id, e.viewUrl);
      }
    }
  }

  /** Drill-down from a context diagram, end to end: an element of the
      answered context view carries a view url exactly when some container
      view belongs to it, and the url is "/container/" followed by the key of
      the last such view. */
  lemma ContextDrillDown(ws: Workspace, id: string)
    requires Start(ws).Success?
    ensures var containers := ViewsAt(ws.staticViews, ContainerLevel);
            var r := Contexts(Start(ws).value, id);
            r.Success? ==>
              forall e :: e in r.value.elements ==>
                && (e.viewUrl.Some? <==> exists i :: 0 <= i < |containers| && Owner(containers[i].kind) == Some(e.id))
                && forall i :: 0 <= i < |containers| && Owner(containers[i].kind) == Some(e.id) &&
                               (forall j :: i < j < |containers| ==> Owner(containers[j].kind) != Some(e.id)) ==>
                                 e.viewUrl == Some("/container/" + containers[i].key)
  {
    ViewsBelowLandscapeOwned(ws.staticViews, ContainerLevel);
    StartLinks(ws);
    ContextUrls(Start(ws).value, id, ViewsAt(ws.staticViews, ContainerLevel));
  }
}
