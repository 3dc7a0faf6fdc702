/** The part of a Structurizr workspace the API reads, and the lookup tables
    the API builds from it once, in its constructor. */
module Workspace {
  import opened Wrappers

  /** The exceptions the API lets escape. */
  datatype Exception =
    | NullPointerException
    | RuntimeException(message: string)

  /** A model element. `parentId` is absent for top-level elements; the
      technology is present only for element kinds that have one. */
  datatype Element = Element(id: string, name: string, description: string,
                             parentId: Option<string>, technology: Option<string>,
                             tags: set<string>)

  datatype Relationship = Relationship(id: string, sourceId: string, destinationId: string,
                                       description: string, technology: Option<string>,
                                       tags: set<string>)

  datatype AutomaticLayout = AutomaticLayout(rankDirection: string, rankSeparation: int,
                                             nodeSeparation: int)

  /** The four static view types, each carrying the id of the element it
      belongs to: the software system of a context or container view, the
      container of a component view. A landscape view belongs to nothing. */
  datatype ViewKind =
    | SystemLandscape
    | SystemContext(softwareSystemId: string)
    | Container(softwareSystemId: string)
    | Component(containerId: string)

  datatype StaticView = StaticView(kind: ViewKind, key: string, name: string, title: string,
                                   elements: seq<Element>, relationships: seq<Relationship>,
                                   automaticLayout: Option<AutomaticLayout>)

  /** A deployment view is scoped to one software system or, when
      `softwareSystemId` is absent, to the whole model. */
  datatype DeploymentView = DeploymentView(key: string, softwareSystemId: Option<string>)

  /** One relationship of a dynamic view with its order label. */
  datatype DynamicStep = DynamicStep(order: string, relationshipId: string)

  /** A dynamic view is scoped to one element or, when `elementId` is
      absent, to the whole model. */
  datatype DynamicView = DynamicView(key: string, name: string, title: string,
                                     elementId: Option<string>, steps: seq<DynamicStep>)

  datatype Workspace = Workspace(staticViews: seq<StaticView>,
                                 deploymentViews: seq<DeploymentView>,
                                 dynamicViews: seq<DynamicView>)

  datatype DynamicViewResponse = DynamicViewResponse(id: string, name: string, title: string,
                                                     steps: map<string, string>)

  /** What the constructor leaves behind: drill-down links keyed by the id of
      the element a view belongs to, and dynamic views grouped by element. */
  datatype Server = Server(workspace: Workspace,
                           elementHasContextView: map<string, string>,
                           elementHasContainerView: map<string, string>,
                           elementHasComponentView: map<string, string>,
                           elementHasDeploymentView: map<string, string>,
                           dynamicViewsByElement: map<Option<string>, map<string, DynamicViewResponse>>)

  datatype Level = LandscapeLevel | ContextLevel | ContainerLevel | ComponentLevel

  function LevelOf(k: ViewKind): Level {
    match k
    case SystemLandscape => LandscapeLevel
    case SystemContext(_) => ContextLevel
    case Container(_) => ContainerLevel
    case Component(_) => ComponentLevel
  }

  /** The id of the element a view belongs to. */
  function Owner(k: ViewKind): (r: Option<string>)
    ensures r.None? <==> k.SystemLandscape?
  {
    match k
    case SystemLandscape => None
    case SystemContext(system) => Some(system)
    case Container(system) => Some(system)
    case Component(container) => Some(container)
  }

  /** `getSystemLandscapeViews()` and its siblings: the views of one type, in
      workspace order. */
  function ViewsAt(views: seq<StaticView>, level: Level): (r: seq<StaticView>)
    ensures |r| <= |views|
    ensures forall v :: v in r <==> v in views && LevelOf(v.kind) == level
  {
    if views == [] then []
    else if LevelOf(views[0].kind) == level then [views[0]] + ViewsAt(views[1..], level)
    else ViewsAt(views[1..], level)
  }

  /** Selecting the views of one type keeps their relative order. */
  lemma {:induction false} ViewsAtAppend(xs: seq<StaticView>, ys: seq<StaticView>, level: Level)
    ensures ViewsAt(xs + ys, level) == ViewsAt(xs, level) + ViewsAt(ys, level)
  {
    if xs == [] {
      assert xs + ys == ys;
    } else {
      var rest := xs[1..] + ys;
      assert xs + ys == [xs[0]] + rest;
      assert (xs + ys)[1..] == rest;
      ViewsAtAppend(xs[1..], ys, level);
      if LevelOf(xs[0].kind) == level {
        assert ViewsAt(xs + ys, level) == [xs[0]] + ViewsAt(rest, level);
      } else {
        assert ViewsAt(xs + ys, level) == ViewsAt(rest, level);
      }
    }
  }

  /** Successive `HashMap.put`s of `entries` into `m`, in order. */
  function PutAll(m: map<string, string>, entries: seq<(string, string)>): (r: map<string, string>)
    ensures forall k :: k in r <==> k in m || exists i :: 0 <= i < |entries| && entries[i].0 == k
    decreases |entries|
  {
    if entries == [] then m
    else
      var r := PutAll(m[entries[0].0 := entries[0].1], entries[1..]);
      assert forall i :: 1 <= i < |entries| ==> entries[i] == entries[1..][i - 1];
      r
  }

  /** A key no entry mentions keeps its value. */
  lemma {:induction false} PutAllUntouched(m: map<string, string>, entries: seq<(string, string)>, k: string)
    requires k in m
    requires forall i :: 0 <= i < |entries| ==> entries[i].0 != k
    ensures PutAll(m, entries)[k] == m[k]
    decreases |entries|
  {
    if entries != [] {
      PutAllUntouched(m[entries[0].0 := entries[0].1], entries[1..], k);
    }
  }

  /** The last `put` of a key decides its value. */
  lemma {:induction false} PutAllLastWins(m: map<string, string>, entries: seq<(string, string)>, i: nat)
    requires i < |entries|
    requires forall j :: i < j < |entries| ==> entries[j].0 != entries[i].0
    ensures entries[i].0 in PutAll(m, entries)
    ensures PutAll(m, entries)[entries[i].0] == entries[i].1
    decreases |entries|
  {
    var m' := m[entries[0].0 := entries[0].1];
    if i == 0 {
      PutAllUntouched(m', entries[1..], entries[0].0);
    } else {
      PutAllLastWins(m', entries[1..], i - 1);
    }
  }

  /** Views that all belong to some element. */
  predicate AllOwned(views: seq<StaticView>) {
    forall i :: 0 <= i < |views| ==> Owner(views[i].kind).Some?
  }

  lemma ViewsBelowLandscapeOwned(views: seq<StaticView>, level: Level)
    requires level != LandscapeLevel
    ensures AllOwned(ViewsAt(views, level))
  {
    var r := ViewsAt(views, level);
    assert forall i :: 0 <= i < |r| ==> r[i] in r;
  }

  /** `put(owner id, prefix + key)` for each view. */
  function LinkEntries(views: seq<StaticView>, prefix: string): (r: seq<(string, string)>)
    requires AllOwned(views)
    ensures |r| == |views|
    ensures forall i :: 0 <= i < |views| ==>
              r[i] == (Owner(views[i].kind).value, prefix + views[i].key)
  {
    seq(|views|, i requires 0 <= i < |views| => (Owner(views[i].kind).value, prefix + views[i].key))
  }

  /** A drill-down link map: element id to the path of the view that
      belongs to it. */
  function Links(views: seq<StaticView>, prefix: string): map<string, string>
    requires AllOwned(views)
  {
    PutAll(map[], LinkEntries(views, prefix))
  }

  /** An element has a link exactly when some view belongs to it, and the
      link names the last such view. */
  lemma LinksDrillDown(views: seq<StaticView>, prefix: string, id: string)
    requires AllOwned(views)
    ensures id in Links(views, prefix) <==>
              exists i :: 0 <= i < |views| && Owner(views[i].kind) == Some(id)
    ensures forall i :: 0 <= i < |views| && Owner(views[i].kind) == Some(id) &&
                        (forall j :: i < j < |views| ==> Owner(views[j].kind) != Some(id)) ==>
                          Links(views, prefix)[id] == prefix + views[i].key
  {
    var entries := LinkEntries(views, prefix);
    forall i | 0 <= i < |views| && Owner(views[i].kind) == Some(id) &&
               (forall j :: i < j < |views| ==> Owner(views[j].kind) != Some(id))
      ensures Links(views, prefix)[id] == prefix + views[i].key
    {
      PutAllLastWins(map[], entries, i);
    }
  }

  /** The deployment-view table. A deployment view of the whole model has no
      software system, and asking it for the system's id throws. */
  function DeploymentLinks(views: seq<DeploymentView>): (r: Result<map<string, string>, Exception>)
    ensures r.Failure? <==> exists i :: 0 <= i < |views| && views[i].softwareSystemId.None?
    ensures r.Failure? ==> r.error == NullPointerException
  {
    if exists i :: 0 <= i < |views| && views[i].softwareSystemId.None? then
      Failure(NullPointerException)
    else
      Success(PutAll(map[], seq(|views|, i requires 0 <= i < |views| =>
                                  (views[i].softwareSystemId.value, "/deployment/" + views[i].key))))
  }

  function StepEntries(steps: seq<DynamicStep>): seq<(string, string)> {
    seq(|steps|, i requires 0 <= i < |steps| => (steps[i].order, steps[i].relationshipId))
  }

  /** The response record for one dynamic view: its steps as an order-label
      to relationship-id map. */
  function DynamicResponse(v: DynamicView): DynamicViewResponse {
    DynamicViewResponse(v.key, v.name, v.title, PutAll(map[], StepEntries(v.steps)))
  }

  /** A step's relationship is recorded under its order label unless a later
      step reuses the label. */
  lemma DynamicStepsLastWins(v: DynamicView, i: nat)
    requires i < |v.steps|
    requires forall j :: i < j < |v.steps| ==> v.steps[j].order != v.steps[i].order
    ensures v.steps[i].order in DynamicResponse(v).steps
    ensures DynamicResponse(v).steps[v.steps[i].order] == v.steps[i].relationshipId
  {
    PutAllLastWins(map[], StepEntries(v.steps), i);
  }

  type Grouping = map<Option<string>, map<string, DynamicViewResponse>>

  /** Adds one dynamic view to the grouping under its element and key. */
  function AddDynamicView(g: Grouping, v: DynamicView): Grouping {
    var dst := if v.elementId in g then g[v.elementId] else map[];
    g[v.elementId := dst[v.key := DynamicResponse(v)]]
  }

  /** The constructor's dynamic-view loop, folded over `views` in order. */
  function GroupDynamicViews(g: Grouping, views: seq<DynamicView>): (r: Grouping)
    ensures forall e :: e in r <==> e in g || exists i :: 0 <= i < |views| && views[i].elementId == e
    decreases |views|
  {
    if views == [] then g
    else
      var r := GroupDynamicViews(AddDynamicView(g, views[0]), views[1..]);
      assert forall i :: 1 <= i < |views| ==> views[i] == views[1..][i - 1];
      r
  }

  /** A grouping entry no view touches keeps its value. */
  lemma {:induction false} GroupingUntouched(g: Grouping, views: seq<DynamicView>, e: Option<string>, key: string)
    requires e in g && key in g[e]
    requires forall i :: 0 <= i < |views| ==> views[i].elementId != e || views[i].key != key
    ensures e in GroupDynamicViews(g, views) && key in GroupDynamicViews(g, views)[e]
    ensures GroupDynamicViews(g, views)[e][key] == g[e][key]
    decreases |views|
  {
    if views != [] {
      GroupingUntouched(AddDynamicView(g, views[0]), views[1..], e, key);
    }
  }

  /** A dynamic view is listed under its element and key unless a later view
      with the same element and key replaces it. */
  lemma {:induction false} GroupingLastWins(g: Grouping, views: seq<DynamicView>, i: nat)
    requires i < |views|
    requires forall j :: i < j < |views| ==>
               views[j].elementId != views[i].elementId || views[j].key != views[i].key
    ensures views[i].elementId in GroupDynamicViews(g, views)
    ensures views[i].key in GroupDynamicViews(g, views)[views[i].elementId]
    ensures GroupDynamicViews(g, views)[views[i].elementId][views[i].key] == DynamicResponse(views[i])
    decreases |views|
  {
    var g' := AddDynamicView(g, views[0]);
    if i == 0 {
      GroupingUntouched(g', views[1..], views[0].elementId, views[0].key);
    } else {
      GroupingLastWins(g', views[1..], i - 1);
    }
  }

  /** The grouping lists exactly the (element, key) pairs of the dynamic
      views, on top of what it started with. */
  lemma {:induction false} GroupingKeys(g: Grouping, views: seq<DynamicView>, e: Option<string>, key: string)
    ensures (e in GroupDynamicViews(g, views) && key in GroupDynamicViews(g, views)[e]) <==>
              (e in g && key in g[e]) ||
              exists i :: 0 <= i < |views| && views[i].elementId == e && views[i].key == key
    decreases |views|
  {
    if views != [] {
      GroupingKeys(AddDynamicView(g, views[0]), views[1..], e, key);
      assert forall i :: 1 <= i < |views| ==> views[i] == views[1..][i - 1];
    }
  }

  /** The constructor, after the workspace has been parsed: the three
      drill-down tables, the deployment table and the dynamic-view grouping. */
  function Start(ws: Workspace): (r: Result<Server, Exception>)
    ensures r.Failure? <==> exists i :: 0 <= i < |ws.deploymentViews| && ws.deploymentViews[i].softwareSystemId.None?
    ensures r.Success? ==> r.value.workspace == ws
    ensures r.Success? ==> forall e :: e in r.value.dynamicViewsByElement <==>
              exists i :: 0 <= i < |ws.dynamicViews| && ws.dynamicViews[i].elementId == e
  {
    ViewsBelowLandscapeOwned(ws.staticViews, ContextLevel);
    ViewsBelowLandscapeOwned(ws.staticViews, ContainerLevel);
    ViewsBelowLandscapeOwned(ws.staticViews, ComponentLevel);
    var deployment :- DeploymentLinks(ws.deploymentViews);
    Success(Server(ws,
                   Links(ViewsAt(ws.staticViews, ContextLevel), "/context/"),
                   Links(ViewsAt(ws.staticViews, ContainerLevel), "/container/"),
                   Links(ViewsAt(ws.staticViews, ComponentLevel), "/component/"),
                   deployment,
                   GroupDynamicViews(map[], ws.dynamicViews)))
  }

  /** The drill-down tables a started server holds. */
  lemma StartLinks(ws: Workspace)
    requires Start(ws).Success?
    ensures Start(ws).value.elementHasContextView == Links(ViewsAt(ws.staticViews, ContextLevel), "/context/")
    ensures Start(ws).value.elementHasContainerView == Links(ViewsAt(ws.staticViews, ContainerLevel), "/container/")
    ensures Start(ws).value.elementHasComponentView == Links(ViewsAt(ws.staticViews, ComponentLevel), "/component/")
  {
  }

  /** A drill-down table built from one level below the landscape has an
      entry for an element exactly when some view of that level belongs to
      it. */
  lemma LevelLinksDrillDown(views: seq<StaticView>, level: Level, prefix: string, id: string)
    requires level != LandscapeLevel
    ensures AllOwned(ViewsAt(views, level))
    ensures id in Links(ViewsAt(views, level), prefix) <==>
              exists v :: v in views && LevelOf(v.kind) == level && Owner(v.kind) == Some(id)
  {
    ViewsBelowLandscapeOwned(views, level);
    var vs := ViewsAt(views, level);
    assert id in Links(vs, prefix) <==> exists i :: 0 <= i < |vs| && Owner(vs[i].kind) == Some(id) by {
      LinksDrillDown(vs, prefix, id);
    }
    if v :| v in views && LevelOf(v.kind) == level && Owner(v.kind) == Some(id) {
      assert v in vs;
      var i :| 0 <= i < |vs| && vs[i] == v;
    }
    if i :| 0 <= i < |vs| && Owner(vs[i].kind) == Some(id) {
      assert vs[i] in vs;
    }
  }

  /** What the constructor's three drill-down tables hold: an element has a
      context, container or component link exactly when some view of that
      type belongs to it. */
  lemma StartDrillDown(ws: Workspace, id: string)
    requires Start(ws).Success?
    ensures id in Start(ws).value.elementHasContextView <==>
              exists v :: v in ws.staticViews && LevelOf(v.kind) == ContextLevel && Owner(v.kind) == Some(id)
    ensures id in Start(ws).value.elementHasContainerView <==>
              exists v :: v in ws.staticViews && LevelOf(v.kind) == ContainerLevel && Owner(v.kind) == Some(id)
    ensures id in Start(ws).value.elementHasComponentView <==>
              exists v :: v in ws.staticViews && LevelOf(v.kind) == ComponentLevel && Owner(v.kind) == Some(id)
  {
    StartLinks(ws);
    LevelLinksDrillDown(ws.staticViews, ContextLevel, "/context/", id);
    LevelLinksDrillDown(ws.staticViews, ContainerLevel, "/container/", id);
    LevelLinksDrillDown(ws.staticViews, ComponentLevel, "/component/", id);
  }
}
