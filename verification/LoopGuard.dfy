/** Contexts of routed jobs and the guard that bounds every chain of transitions. */
module LoopGuard {
  import opened Base
  import opened ContextJson
  import opened ContextLedger
  import opened ControlPlane
  import opened Router

  // ---------------------------------------------------------------- contexts of dispatches

  /** contextUpdatesForDispatch: claims stamped with depth budget, instance and depth. */
  function ContextUpdates(claims: Object, d: Dispatch): Option<Object> {
    var u1 := if d.maxDepth > 0 then WithMaxDepth(claims, d.maxDepth) else Some(claims);
    var u2 := if u1.Some? && Trim(d.instance) != "" then WithInstance(u1.value, d.instance) else u1;
    if u2.Some? && d.depth > 0 then WithDepth(u2.value, d.depth) else u2
  }

  /** The updates that seed the root context of a pipeline instance. */
  function SeedUpdates(d: Dispatch): Option<Object> {
    var u1 := WithInstance(map[], d.instance);
    var u2 := if u1.Some? then WithDepth(u1.value, 0) else None;
    if u2.Some? && d.maxDepth > 0 then WithMaxDepth(u2.value, d.maxDepth) else u2
  }

  type RootCache = map<(string, string), ContextId>

  datatype Rooted = Rooted(ledger: Ledger, cache: RootCache, parent: Option<ContextId>) | RootFailed

  /** ensurePipelineInstanceRootContext. */
  function EnsureRoot(ledger: Ledger, cache: RootCache, d: Dispatch, fits: Json -> bool): Rooted {
    if (d.pipeline, d.instance) in cache then Rooted(ledger, cache, Some(cache[(d.pipeline, d.instance)]))
    else
      var seed := SeedUpdates(d);
      if seed.None? then RootFailed
      else
        var (ledger', r) := Create(ledger, None, d.pipeline, "", Some(Obj(seed.value)), fits);
        if r.Created? then Rooted(ledger', cache[(d.pipeline, d.instance) := r.id], Some(r.id)) else RootFailed
  }

  /** parentContextIDForDispatch: the source context within one pipeline instance, otherwise the
      root context of the instance in the dispatched pipeline. */
  function ParentFor(ledger: Ledger, cache: RootCache, d: Dispatch, fits: Json -> bool): Rooted {
    if Trim(d.pipeline) == "" || Trim(d.instance) == "" then Rooted(ledger, cache, d.context)
    else if d.context.None? then EnsureRoot(ledger, cache, d, fits)
    else if d.context.value >= |ledger| then RootFailed
    else
      var c := ledger[d.context.value];
      if c.pipeline == d.pipeline && InstanceOf(c.accumulated) == d.instance then Rooted(ledger, cache, d.context)
      else EnsureRoot(ledger, cache, d, fits)
  }

  datatype Contexted = Contexted(ledger: Ledger, cache: RootCache, id: ContextId) | ContextFailed

  /** The context of one dispatch: updates, then parent, then the ledger row. */
  function ContextFor(ledger: Ledger, cache: RootCache, d: Dispatch, claims: Object, fits: Json -> bool): Contexted {
    var updates := ContextUpdates(claims, d);
    if updates.None? then ContextFailed
    else
      var p := ParentFor(ledger, cache, d, fits);
      if p.RootFailed? then ContextFailed
      else
        var (ledger', r) := Create(p.ledger, p.parent, d.pipeline, d.step, Some(Obj(updates.value)), fits);
        if r.Created? then Contexted(ledger', p.cache, r.id) else ContextFailed
  }

  /** The routing request of a job that runs in a context. */
  function RequestOf(ledger: Ledger, c: ContextId, job: string, eventId: string, eventType: string): Request
    requires c < |ledger|
  {
    var acc := ledger[c].accumulated;
    Request(ledger[c].pipeline, ledger[c].step, InstanceOf(acc), DepthOf(acc), MaxDepthOf(acc), job, Some(c),
            eventId, eventType)
  }

  // ---------------------------------------------------------------- dispatches

  /** What every dispatch takes over from the request, through any nesting of calls. */
  predicate Carries(req: Request, d: Dispatch) {
    d.instance == req.instance && d.depth == req.depth + 1 && d.context == req.context && d.job == req.job &&
    d.eventId == req.eventId && (req.maxDepth != 0 ==> d.maxDepth == req.maxDepth)
  }

  lemma {:induction false} ResolveCarries(net: Network, route: Route, req: Request)
    requires Acyclic(net) && CallFalls(net, route) && Resolve(net, route, req).Some?
    ensures forall d :: d in Resolve(net, route, req).value ==> Carries(req, d)
    decreases Rank(net, route.pipeline), 1, 0
  {
    if route.destination.Call? {
      var called := Trim(route.destination.target);
      ResolveAllCarries(net, called, EntryRoutes(net.routes[called], called), req);
    }
  }

  lemma {:induction false} ResolveAllCarries(net: Network, called: string, entries: seq<Route>, req: Request)
    requires Acyclic(net) && called in net.routes
    requires forall i :: 0 <= i < |entries| ==> entries[i] in net.routes[called] && entries[i].pipeline == called
    requires ResolveAll(net, called, entries, req).Some?
    ensures forall d :: d in ResolveAll(net, called, entries, req).value ==> Carries(req, d)
    decreases Rank(net, called), 2, |entries|
  {
    if entries != [] {
      assert entries[0] in net.routes[called] && CallFalls(net, entries[0]);
      ResolveCarries(net, entries[0], req);
      ResolveAllCarries(net, called, entries[1..], req);
    }
  }

  /** The depth limit of a pipeline, which the compiler puts on every route of it. */
  function DepthLimit(net: Network, pipeline: string): int {
    if pipeline in net.routes && net.routes[pipeline] != [] then net.routes[pipeline][0].source.depthLt else 0
  }

  predicate OneDepth(net: Network) {
    forall p :: p in net.routes ==>
      forall i :: 0 <= i < |net.routes[p]| ==> net.routes[p][i].source.depthLt == DepthLimit(net, p)
  }

  predicate InNet(net: Network, route: Route) {
    route.pipeline in net.routes && route in net.routes[route.pipeline]
  }

  /** The budget of a dispatch depends only on the request's and on the pipeline it goes to. */
  lemma {:induction false} ResolveBudget(net: Network, route: Route, req: Request)
    requires Acyclic(net) && OneDepth(net) && CallFalls(net, route) && InNet(net, route)
    requires Resolve(net, route, req).Some?
    ensures forall d :: d in Resolve(net, route, req).value ==>
                          d.maxDepth == if req.maxDepth == 0 then DepthLimit(net, d.pipeline) else req.maxDepth
    decreases Rank(net, route.pipeline), 1, 0
  {
    if route.destination.Call? {
      var called := Trim(route.destination.target);
      ResolveAllBudget(net, called, EntryRoutes(net.routes[called], called), req);
    }
  }

  lemma {:induction false} ResolveAllBudget(net: Network, called: string, entries: seq<Route>, req: Request)
    requires Acyclic(net) && OneDepth(net) && called in net.routes
    requires forall i :: 0 <= i < |entries| ==> entries[i] in net.routes[called] && entries[i].pipeline == called
    requires ResolveAll(net, called, entries, req).Some?
    ensures forall d :: d in ResolveAll(net, called, entries, req).value ==>
                          d.maxDepth == if req.maxDepth == 0 then DepthLimit(net, d.pipeline) else req.maxDepth
    decreases Rank(net, called), 2, |entries|
  {
    if entries != [] {
      assert entries[0] in net.routes[called] && CallFalls(net, entries[0]);
      ResolveBudget(net, entries[0], req);
      ResolveAllBudget(net, called, entries[1..], req);
    }
  }

  // ---------------------------------------------------------------- stamping never conflicts

  /** Claims that stay out of the reserved namespace. */
  predicate Claimable(claims: Object) {
    Namespace() !in claims
  }

  /** Claims with a namespace object added. */
  function Stamped(claims: Object, plane: Object): Object {
    if plane == map[] then claims else claims[Namespace() := Obj(plane)]
  }

  lemma FieldIsStamped(claims: Object, plane: Object, field: string, value: Json)
    requires Claimable(claims) && field !in plane
    ensures WithField(Stamped(claims, plane), field, value) == Some(Stamped(claims, plane[field := value]))
  {
    assert Stamped(claims, plane)[Namespace() := Obj(plane[field := value])] ==
           claims[Namespace() := Obj(plane[field := value])];
    assert field in plane[field := value];
  }

  /** The namespace update that one routing step writes. */
  function Stamp(maxDepth: int, id: string, depth: int): Object {
    var p1: Object := if maxDepth > 0 then map[MaxDepthField() := Num(maxDepth)] else map[];
    var p2 := if Trim(id) != "" then p1[InstanceField() := Str(Trim(id))] else p1;
    if depth > 0 then p2[DepthField() := Num(depth)] else p2
  }

  lemma UpdatesAreStamped(claims: Object, d: Dispatch)
    requires Claimable(claims)
    ensures ContextUpdates(claims, d) == Some(Stamped(claims, Stamp(d.maxDepth, d.instance, d.depth)))
  {
    FieldsDiffer();
    var p1: Object := if d.maxDepth > 0 then map[MaxDepthField() := Num(d.maxDepth)] else map[];
    var p2 := if Trim(d.instance) != "" then p1[InstanceField() := Str(Trim(d.instance))] else p1;
    FieldIsStamped(claims, map[], MaxDepthField(), Num(d.maxDepth));
    FieldIsStamped(claims, p1, InstanceField(), Str(Trim(d.instance)));
    FieldIsStamped(claims, p2, DepthField(), Num(d.depth));
  }

  /** The namespace of a root context. */
  function Seed(maxDepth: int, id: string): Object {
    var p := map[InstanceField() := Str(Trim(id))][DepthField() := Num(0)];
    if maxDepth > 0 then p[MaxDepthField() := Num(maxDepth)] else p
  }

  lemma SeedIsStamped(d: Dispatch)
    requires Trim(d.instance) != ""
    ensures SeedUpdates(d) == Some(map[Namespace() := Obj(Seed(d.maxDepth, d.instance))])
  {
    FieldsDiffer();
    var p1 := map[InstanceField() := Str(Trim(d.instance))];
    var p2 := p1[DepthField() := Num(0)];
    FieldIsStamped(map[], map[], InstanceField(), Str(Trim(d.instance)));
    FieldIsStamped(map[], p1, DepthField(), Num(0));
    FieldIsStamped(map[], p2, MaxDepthField(), Num(d.maxDepth));
  }

  /** The parent's namespace has nothing against this stamp. */
  predicate Agrees(accumulated: Json, maxDepth: int, id: string) {
    var plane := Plane(accumulated);
    (Trim(id) != "" && InstanceField() in plane ==> plane[InstanceField()] == Str(Trim(id))) &&
    (maxDepth > 0 && MaxDepthField() in plane ==> plane[MaxDepthField()] == Num(maxDepth))
  }

  lemma PlanesMerge(plane: Object, stamp: Object)
    requires forall k :: k in plane && k in stamp ==> plane[k] == stamp[k] || k == DepthField()
    ensures AccreteValue(Obj(plane), Obj(stamp), Namespace()) == Merged(Obj(plane + stamp))
  {
    FieldsDiffer();
    if plane == stamp {
      assert plane + stamp == plane;
    } else {
      forall k | k in plane && k in stamp
        ensures AccreteValue(plane[k], stamp[k], JoinPath(Namespace(), k)) == Merged(stamp[k])
      {
      }
      var r := Accrete(Obj(plane), Obj(stamp), Namespace());
      assert r.Merged? && r.value.fields == plane + stamp;
    }
  }

  /** Stamping claims neither causes nor hides an immutability error, and the new namespace is the
      parent's one overridden by the stamp. */
  lemma StampAccretes(parent: Json, claims: Object, maxDepth: int, id: string, depth: int)
    requires PlaneOk(parent) && Claimable(claims) && Agrees(parent, maxDepth, id) && depth > 0
    ensures var stamp := Stamp(maxDepth, id, depth);
            var plain, stamped := Accrete(parent, Obj(claims), ""), Accrete(parent, Obj(Stamped(claims, stamp)), "");
            (stamped.Merged? <==> plain.Merged?) && (stamped.Merged? ==> Plane(stamped.value) == Plane(parent) + stamp)
  {
    FieldsDiffer();
    var stamp := Stamp(maxDepth, id, depth);
    assert DepthField() in stamp;
    var u := Stamped(claims, stamp);
    assert forall k :: JoinPath("", k) == k;
    if Namespace() in parent.fields {
      PlanesMerge(Plane(parent), stamp);
      assert parent.fields[Namespace()] == Obj(Plane(parent));
    } else {
      assert Plane(parent) + stamp == stamp;
    }
    assert forall k :: k in parent.fields && k in u && k != Namespace() ==> k in claims && u[k] == claims[k];
    assert forall k :: k in parent.fields && k in claims ==> k in u && u[k] == claims[k];
  }

  lemma StampFields(maxDepth: int, id: string, depth: int)
    requires depth > 0
    ensures var stamp := Stamp(maxDepth, id, depth);
            (MaxDepthField() in stamp <==> maxDepth > 0) &&
            (maxDepth > 0 ==> stamp[MaxDepthField()] == Num(maxDepth)) &&
            (InstanceField() in stamp <==> Trim(id) != "") &&
            (Trim(id) != "" ==> stamp[InstanceField()] == Str(Trim(id))) &&
            DepthField() in stamp && stamp[DepthField()] == Num(depth)
  {
    FieldsDiffer();
  }

  /** The context below an agreeing parent: its budget, instance and depth. */
  lemma StampedContext(parent: Json, claims: Object, maxDepth: int, id: string, depth: int)
    requires PlaneOk(parent) && Claimable(claims) && Agrees(parent, maxDepth, id) && depth > 0 && Trim(id) != ""
    requires Accrete(parent, Obj(Stamped(claims, Stamp(maxDepth, id, depth))), "").Merged?
    ensures var after := Accrete(parent, Obj(Stamped(claims, Stamp(maxDepth, id, depth))), "").value;
            PlaneOk(after) && DepthOf(after) == depth && InstanceOf(after) == Trim(id) &&
            MaxDepthOf(after) == if maxDepth > 0 then maxDepth else MaxDepthOf(parent)
  {
    FieldsDiffer();
    StampAccretes(parent, claims, maxDepth, id, depth);
    StampFields(maxDepth, id, depth);
    TrimIsTrimmed(id);
    TrimIsTrimmed(Trim(id));
  }

  // ---------------------------------------------------------------- one hop

  /** A root context cached in this routing pass was seeded for the same instance and budget. */
  ghost predicate CacheAgrees(ledger: Ledger, cache: RootCache, d: Dispatch) {
    (d.pipeline, d.instance) in cache ==>
      var root := cache[(d.pipeline, d.instance)];
      root < |ledger| &&
      ledger[root] == Context(None, d.pipeline, "", Obj(map[Namespace() := Obj(Seed(d.maxDepth, d.instance))]))
  }

  lemma SeedIsOk(maxDepth: int, id: string)
    requires Trim(id) != ""
    ensures var root := Obj(map[Namespace() := Obj(Seed(maxDepth, id))]);
            PlaneOk(root) && Agrees(root, maxDepth, id) &&
            (MaxDepthField() in Plane(root) <==> maxDepth > 0) && InstanceField() in Plane(root)
  {
    FieldsDiffer();
    TrimIsTrimmed(id);
  }

  /** The parent of a hop's context is the source itself or a root that agrees with it. */
  lemma ParentAgrees(ledger: Ledger, cache: RootCache, c: ContextId, req: Request, d: Dispatch, fits: Json -> bool)
    requires c < |ledger| && PlaneOk(ledger[c].accumulated)
    requires req == RequestOf(ledger, c, req.job, req.eventId, req.eventType) && Trim(req.instance) != ""
    requires Carries(req, d) && CacheAgrees(ledger, cache, d)
    ensures var p := ParentFor(ledger, cache, d, fits);
            p.Rooted? ==>
              ledger <= p.ledger && p.parent.Some? && p.parent.value < |p.ledger| &&
              var parent := p.ledger[p.parent.value].accumulated;
              PlaneOk(parent) && Agrees(parent, d.maxDepth, d.instance) &&
              (d.maxDepth <= 0 ==> MaxDepthField() !in Plane(parent))
  {
    var acc := ledger[c].accumulated;
    var plane := Plane(acc);
    assert InstanceField() in plane && plane[InstanceField()].Str?;
    TrimIsTrimmed(plane[InstanceField()].s);
    TrimIsTrimmed(InstanceOf(acc));
    SeedIsStamped(d);
    SeedIsOk(d.maxDepth, d.instance);
  }

  lemma AgreeingContext(ledger: Ledger, cache: RootCache, c: ContextId, req: Request, d: Dispatch, claims: Object,
                        fits: Json -> bool)
    requires c < |ledger| && PlaneOk(ledger[c].accumulated)
    requires req == RequestOf(ledger, c, req.job, req.eventId, req.eventType) && Trim(req.instance) != ""
    requires Carries(req, d) && CacheAgrees(ledger, cache, d) && Claimable(claims)
    ensures ContextUpdates(claims, d).Some?
    ensures var p := ParentFor(ledger, cache, d, fits);
            p.Rooted? ==>
              p.parent.Some? && p.parent.value < |p.ledger| && p.ledger[p.parent.value].accumulated.Obj? &&
              var parent := p.ledger[p.parent.value].accumulated;
              (Accrete(parent, Obj(ContextUpdates(claims, d).value), "").Merged? <==>
               Accrete(parent, Obj(claims), "").Merged?)
  {
    UpdatesAreStamped(claims, d);
    ParentAgrees(ledger, cache, c, req, d, fits);
    var p := ParentFor(ledger, cache, d, fits);
    if p.Rooted? {
      StampAccretes(p.ledger[p.parent.value].accumulated, claims, d.maxDepth, d.instance, d.depth);
    }
  }

  /** The context of a dispatch is what its stamped claims accrete to below its parent. */
  lemma ContextBelow(ledger: Ledger, cache: RootCache, d: Dispatch, claims: Object, fits: Json -> bool, p: Rooted)
    requires ContextFor(ledger, cache, d, claims, fits).Contexted? && Claimable(claims)
    requires p == ParentFor(ledger, cache, d, fits) && p.Rooted? && p.parent.Some? && p.parent.value < |p.ledger|
    requires p.ledger[p.parent.value].accumulated.Obj?
    ensures var r := ContextFor(ledger, cache, d, claims, fits);
            var u := Stamped(claims, Stamp(d.maxDepth, d.instance, d.depth));
            var m := Accrete(p.ledger[p.parent.value].accumulated, Obj(u), "");
            p.ledger <= r.ledger && r.id < |r.ledger| && m.Merged? && r.ledger[r.id].accumulated == m.value
  {
    UpdatesAreStamped(claims, d);
  }

  /** What a hop does to the control plane, once its parent agrees. */
  lemma HopValues(before: Json, parent: Json, d: Dispatch, claims: Object)
    requires PlaneOk(before) && PlaneOk(parent) && Agrees(parent, d.maxDepth, d.instance) && Claimable(claims)
    requires d.instance == InstanceOf(before) && Trim(d.instance) != "" && d.depth == DepthOf(before) + 1
    requires MaxDepthOf(before) != 0 ==> d.maxDepth == MaxDepthOf(before)
    requires Accrete(parent, Obj(Stamped(claims, Stamp(d.maxDepth, d.instance, d.depth))), "").Merged?
    ensures var after := Accrete(parent, Obj(Stamped(claims, Stamp(d.maxDepth, d.instance, d.depth))), "").value;
            PlaneOk(after) && DepthOf(after) == DepthOf(before) + 1 && InstanceOf(after) == InstanceOf(before) &&
            (MaxDepthOf(before) > 0 ==> MaxDepthOf(after) == MaxDepthOf(before))
  {
    InstanceIsTrimmed(before);
    StampedContext(parent, claims, d.maxDepth, d.instance, d.depth);
  }

  lemma AgreeingHop(ledger: Ledger, cache: RootCache, c: ContextId, req: Request, d: Dispatch, claims: Object,
                    fits: Json -> bool)
    requires c < |ledger| && PlaneOk(ledger[c].accumulated)
    requires req == RequestOf(ledger, c, req.job, req.eventId, req.eventType) && Trim(req.instance) != ""
    requires Carries(req, d) && CacheAgrees(ledger, cache, d) && Claimable(claims)
    requires ContextFor(ledger, cache, d, claims, fits).Contexted?
    ensures var r := ContextFor(ledger, cache, d, claims, fits);
            ledger <= r.ledger && r.id < |r.ledger| &&
            var before, after := ledger[c].accumulated, r.ledger[r.id].accumulated;
            PlaneOk(after) && DepthOf(after) == DepthOf(before) + 1 && InstanceOf(after) == InstanceOf(before) &&
            (MaxDepthOf(before) > 0 ==> MaxDepthOf(after) == MaxDepthOf(before))
  {
    ParentAgrees(ledger, cache, c, req, d, fits);
    var p := ParentFor(ledger, cache, d, fits);
    ContextBelow(ledger, cache, d, claims, fits, p);
    HopValues(ledger[c].accumulated, p.ledger[p.parent.value].accumulated, d, claims);
  }

  lemma InstanceIsTrimmed(accumulated: Json)
    ensures Trim(InstanceOf(accumulated)) == InstanceOf(accumulated)
  {
    var plane := Plane(accumulated);
    if InstanceField() in plane && plane[InstanceField()].Str? {
      TrimIsTrimmed(plane[InstanceField()].s);
    }
    TrimIsTrimmed(InstanceOf(accumulated));
  }

  /** The dispatch starts an instance of its own: it comes without a context, or with the context of
      another pipeline or instance. */
  predicate StartsInstance(ledger: Ledger, d: Dispatch) {
    Trim(d.pipeline) != "" && Trim(d.instance) != "" &&
    (d.context.Some? ==>
       d.context.value < |ledger| &&
       var c := ledger[d.context.value]; c.pipeline != d.pipeline || InstanceOf(c.accumulated) != d.instance)
  }

  /** The parent of such a dispatch is the root of its instance, seeded for it. */
  lemma TriggerParent(ledger: Ledger, cache: RootCache, d: Dispatch, fits: Json -> bool)
    requires StartsInstance(ledger, d) && CacheAgrees(ledger, cache, d)
    ensures var p := ParentFor(ledger, cache, d, fits);
            p.Rooted? ==>
              ledger <= p.ledger && p.parent.Some? && p.parent.value < |p.ledger| &&
              p.ledger[p.parent.value].accumulated == Obj(map[Namespace() := Obj(Seed(d.maxDepth, d.instance))])
  {
    SeedIsStamped(d);
  }

  lemma AgreeingTrigger(ledger: Ledger, cache: RootCache, d: Dispatch, claims: Object, fits: Json -> bool)
    requires StartsInstance(ledger, d) && d.depth > 0 && CacheAgrees(ledger, cache, d) && Claimable(claims)
    requires ContextFor(ledger, cache, d, claims, fits).Contexted?
    ensures var r := ContextFor(ledger, cache, d, claims, fits);
            ledger <= r.ledger && r.id < |r.ledger| &&
            var after := r.ledger[r.id].accumulated;
            PlaneOk(after) && DepthOf(after) == d.depth && InstanceOf(after) == Trim(d.instance) &&
            MaxDepthOf(after) == if d.maxDepth > 0 then d.maxDepth else 0
  {
    TriggerParent(ledger, cache, d, fits);
    SeedIsOk(d.maxDepth, d.instance);
    var p := ParentFor(ledger, cache, d, fits);
    ContextBelow(ledger, cache, d, claims, fits, p);
    StampedContext(p.ledger[p.parent.value].accumulated, claims, d.maxDepth, d.instance, d.depth);
  }

  // ---------------------------------------------------------------- one routing pass

  /** A dispatch of a routing pass and the claims made for it. */
  datatype Sent = Sent(d: Dispatch, claims: Object)

  datatype Passed = Passed(ledger: Ledger, cache: RootCache) | PassFailed

  /** The contexts of a routing pass, one dispatch after the other; the cache of root contexts starts
      empty, and the first error ends the pass. */
  function Pass(ledger: Ledger, sents: seq<Sent>, fits: Json -> bool): Passed {
    if sents == [] then Passed(ledger, map[])
    else
      var p, last := Pass(ledger, sents[..|sents| - 1], fits), sents[|sents| - 1];
      if p.PassFailed? then PassFailed
      else
        var r := ContextFor(p.ledger, p.cache, last.d, last.claims, fits);
        if r.Contexted? then Passed(r.ledger, r.cache) else PassFailed
  }

  /** Dispatches into one pipeline instance have one budget. */
  predicate SameBudget(d: Dispatch, e: Dispatch) {
    d.pipeline == e.pipeline && d.instance == e.instance ==> d.maxDepth == e.maxDepth
  }

  predicate OneBudget(sents: seq<Sent>, d: Dispatch) {
    forall i :: 0 <= i < |sents| ==> SameBudget(sents[i].d, d)
  }

  lemma RootKeepsCache(ledger: Ledger, cache: RootCache, e: Dispatch, d: Dispatch, fits: Json -> bool)
    requires CacheAgrees(ledger, cache, d) && SameBudget(e, d) && Trim(e.instance) != ""
    requires EnsureRoot(ledger, cache, e, fits).Rooted?
    ensures var p := EnsureRoot(ledger, cache, e, fits); ledger <= p.ledger && CacheAgrees(p.ledger, p.cache, d)
  {
    SeedIsStamped(e);
  }

  lemma ParentKeepsCache(ledger: Ledger, cache: RootCache, e: Dispatch, d: Dispatch, fits: Json -> bool)
    requires CacheAgrees(ledger, cache, d) && SameBudget(e, d) && ParentFor(ledger, cache, e, fits).Rooted?
    ensures var p := ParentFor(ledger, cache, e, fits); ledger <= p.ledger && CacheAgrees(p.ledger, p.cache, d)
  {
    if Trim(e.instance) != "" && EnsureRoot(ledger, cache, e, fits).Rooted? {
      RootKeepsCache(ledger, cache, e, d, fits);
    }
  }

  lemma ContextKeepsCache(ledger: Ledger, cache: RootCache, s: Sent, d: Dispatch, fits: Json -> bool)
    requires CacheAgrees(ledger, cache, d) && SameBudget(s.d, d)
    requires ContextFor(ledger, cache, s.d, s.claims, fits).Contexted?
    ensures var r := ContextFor(ledger, cache, s.d, s.claims, fits);
            ledger <= r.ledger && CacheAgrees(r.ledger, r.cache, d)
  {
    ParentKeepsCache(ledger, cache, s.d, d, fits);
  }

  /** The cache that a pass has built agrees with every dispatch of the same budget. */
  lemma {:induction false} PassAgrees(ledger: Ledger, sents: seq<Sent>, d: Dispatch, fits: Json -> bool)
    requires Pass(ledger, sents, fits).Passed? && OneBudget(sents, d)
    ensures var p := Pass(ledger, sents, fits); ledger <= p.ledger && CacheAgrees(p.ledger, p.cache, d)
  {
    if sents != [] {
      var init, last := sents[..|sents| - 1], sents[|sents| - 1];
      PassAgrees(ledger, init, d, fits);
      var p := Pass(ledger, init, fits);
      ContextKeepsCache(p.ledger, p.cache, last, d, fits);
    }
  }

  /** A hop's control-plane updates never fail, wherever it comes in its pass: its context is refused
      only if its claims alone would be. */
  lemma ContextSucceeds(ledger: Ledger, sents: seq<Sent>, c: ContextId, req: Request, d: Dispatch, claims: Object,
                        fits: Json -> bool)
    requires c < |ledger| && PlaneOk(ledger[c].accumulated) && Pass(ledger, sents, fits).Passed? && OneBudget(sents, d)
    requires req == RequestOf(ledger, c, req.job, req.eventId, req.eventType) && Trim(req.instance) != ""
    requires Carries(req, d) && Claimable(claims)
    ensures ContextUpdates(claims, d).Some?
    ensures var p := Pass(ledger, sents, fits);
            var q := ParentFor(p.ledger, p.cache, d, fits);
            q.Rooted? ==>
              q.parent.Some? && q.parent.value < |q.ledger| && q.ledger[q.parent.value].accumulated.Obj? &&
              var parent := q.ledger[q.parent.value].accumulated;
              (Accrete(parent, Obj(ContextUpdates(claims, d).value), "").Merged? <==>
               Accrete(parent, Obj(claims), "").Merged?)
  {
    PassAgrees(ledger, sents, d, fits);
    var p := Pass(ledger, sents, fits);
    AgreeingContext(p.ledger, p.cache, c, req, d, claims, fits);
  }

  /** One hop, wherever it comes in its pass: the new context keeps a positive budget and the instance
      and is one level deeper. */
  lemma HopStep(ledger: Ledger, sents: seq<Sent>, c: ContextId, req: Request, d: Dispatch, claims: Object,
                fits: Json -> bool)
    requires c < |ledger| && PlaneOk(ledger[c].accumulated) && Pass(ledger, sents, fits).Passed? && OneBudget(sents, d)
    requires req == RequestOf(ledger, c, req.job, req.eventId, req.eventType) && Trim(req.instance) != ""
    requires Carries(req, d) && Claimable(claims)
    requires var p := Pass(ledger, sents, fits); ContextFor(p.ledger, p.cache, d, claims, fits).Contexted?
    ensures var p := Pass(ledger, sents, fits);
            var r := ContextFor(p.ledger, p.cache, d, claims, fits);
            ledger <= r.ledger && r.id < |r.ledger| &&
            var before, after := ledger[c].accumulated, r.ledger[r.id].accumulated;
            PlaneOk(after) && DepthOf(after) == DepthOf(before) + 1 && InstanceOf(after) == InstanceOf(before) &&
            (MaxDepthOf(before) > 0 ==> MaxDepthOf(after) == MaxDepthOf(before))
  {
    PassAgrees(ledger, sents, d, fits);
    var p := Pass(ledger, sents, fits);
    AgreeingHop(p.ledger, p.cache, c, req, d, claims, fits);
  }

  /** A triggered pipeline, whether or not the triggering job has a context, starts below its own root
      context with its own depth, instance and budget. */
  lemma TriggerStep(ledger: Ledger, sents: seq<Sent>, d: Dispatch, claims: Object, fits: Json -> bool)
    requires Pass(ledger, sents, fits).Passed? && OneBudget(sents, d) && StartsInstance(ledger, d)
    requires d.depth > 0 && Claimable(claims)
    requires var p := Pass(ledger, sents, fits); ContextFor(p.ledger, p.cache, d, claims, fits).Contexted?
    ensures var p := Pass(ledger, sents, fits);
            var r := ContextFor(p.ledger, p.cache, d, claims, fits);
            ledger <= r.ledger && r.id < |r.ledger| &&
            var after := r.ledger[r.id].accumulated;
            PlaneOk(after) && DepthOf(after) == d.depth && InstanceOf(after) == Trim(d.instance) &&
            MaxDepthOf(after) == if d.maxDepth > 0 then d.maxDepth else 0
  {
    PassAgrees(ledger, sents, d, fits);
    var p := Pass(ledger, sents, fits);
    assert d.context.Some? ==> p.ledger[d.context.value] == ledger[d.context.value];
    AgreeingTrigger(p.ledger, p.cache, d, claims, fits);
  }

  /** Whether the context of a dispatch goes on from the one of the job that sent it: the dispatch has
      no instance, or it stays within the pipeline instance of that context. */
  predicate Continues(ledger: Ledger, d: Dispatch) {
    Trim(d.pipeline) == "" || Trim(d.instance) == "" ||
    (d.context.Some? && d.context.value < |ledger| && ledger[d.context.value].pipeline == d.pipeline &&
     InstanceOf(ledger[d.context.value].accumulated) == d.instance)
  }

  lemma ParentIs(ledger: Ledger, cache: RootCache, d: Dispatch, fits: Json -> bool)
    requires CacheAgrees(ledger, cache, d) && ParentFor(ledger, cache, d, fits).Rooted?
    ensures var p := ParentFor(ledger, cache, d, fits);
            if Continues(ledger, d) then p.parent == d.context && p.ledger == ledger
            else p.parent.Some? && p.parent.value < |p.ledger| && p.ledger[p.parent.value].parent == None &&
                 p.ledger[p.parent.value].pipeline == d.pipeline && p.ledger[p.parent.value].step == ""
  {
    if Trim(d.instance) != "" {
      SeedIsStamped(d);
    }
  }

  lemma ClaimsAreKept(ledger: Ledger, parent: Option<ContextId>, claims: Object, stamp: Object)
    requires Claimable(claims) && (parent.Some? ==> parent.value < |ledger|)
    requires Accumulate(ledger, parent, Obj(Stamped(claims, stamp))).Merged?
    ensures Le(Obj(claims), Accumulate(ledger, parent, Obj(Stamped(claims, stamp))).value)
  {
    var u := Stamped(claims, stamp);
    assert Le(Obj(claims), Obj(u));
    if parent.Some? {
      AccreteIsUpper(ledger[parent.value].accumulated, Obj(u), "");
      LeTransitive(Obj(claims), Obj(u), Accumulate(ledger, parent, Obj(u)).value);
    }
  }

  /** The new context is for the step of the dispatch and carries its claims. It goes on from the context
      of the job that sent it within one pipeline instance, and otherwise from a root context of the
      dispatched pipeline. */
  lemma PlacedAt(ledger: Ledger, sents: seq<Sent>, d: Dispatch, claims: Object, fits: Json -> bool)
    requires Pass(ledger, sents, fits).Passed? && OneBudget(sents, d) && Claimable(claims)
    requires d.context.Some? ==> d.context.value < |ledger|
    requires var p := Pass(ledger, sents, fits); ContextFor(p.ledger, p.cache, d, claims, fits).Contexted?
    ensures var p := Pass(ledger, sents, fits);
            var r := ContextFor(p.ledger, p.cache, d, claims, fits);
            r.id == |r.ledger| - 1 && var c := r.ledger[r.id];
            c.pipeline == d.pipeline && c.step == d.step && Le(Obj(claims), c.accumulated) &&
            if Continues(ledger, d) then c.parent == d.context
            else c.parent.Some? && c.parent.value < |r.ledger| && r.ledger[c.parent.value].parent == None &&
                 r.ledger[c.parent.value].pipeline == d.pipeline && r.ledger[c.parent.value].step == ""
  {
    PassAgrees(ledger, sents, d, fits);
    var p := Pass(ledger, sents, fits);
    ParentIs(p.ledger, p.cache, d, fits);
    UpdatesAreStamped(claims, d);
    var q := ParentFor(p.ledger, p.cache, d, fits);
    ClaimsAreKept(q.ledger, q.parent, claims, Stamp(d.maxDepth, d.instance, d.depth));
  }

  predicate Extends(cache: RootCache, cache': RootCache) {
    forall key :: key in cache ==> key in cache' && cache'[key] == cache[key]
  }

  lemma ParentIsCached(ledger: Ledger, cache: RootCache, d: Dispatch, fits: Json -> bool)
    requires ParentFor(ledger, cache, d, fits).Rooted?
    ensures var p := ParentFor(ledger, cache, d, fits);
            ledger <= p.ledger && Extends(cache, p.cache) &&
            (!Continues(ledger, d) ==>
               (d.pipeline, d.instance) in p.cache && p.parent == Some(p.cache[(d.pipeline, d.instance)]))
  {
  }

  /** A dispatch into a new pipeline instance hangs its context below the cached root of that instance,
      and the cache keeps it. */
  lemma RootIsCached(ledger: Ledger, cache: RootCache, d: Dispatch, claims: Object, fits: Json -> bool)
    requires ContextFor(ledger, cache, d, claims, fits).Contexted?
    ensures var r := ContextFor(ledger, cache, d, claims, fits);
            r.id == |r.ledger| - 1 && ledger <= r.ledger && Extends(cache, r.cache) &&
            (!Continues(ledger, d) ==>
               (d.pipeline, d.instance) in r.cache && r.ledger[r.id].parent == Some(r.cache[(d.pipeline, d.instance)]))
  {
    ParentIsCached(ledger, cache, d, fits);
  }

  /** The context made hangs below the cached root of this pipeline instance. */
  predicate BelowCached(ledger: Ledger, cache: RootCache, made: int, key: (string, string)) {
    0 <= made < |ledger| && key in cache && ledger[made].parent == Some(cache[key])
  }

  lemma StaysBelowCached(ledger: Ledger, cache: RootCache, s: Sent, made: int, key: (string, string),
                         fits: Json -> bool)
    requires ContextFor(ledger, cache, s.d, s.claims, fits).Contexted? && BelowCached(ledger, cache, made, key)
    ensures var r := ContextFor(ledger, cache, s.d, s.claims, fits); BelowCached(r.ledger, r.cache, made, key)
  {
    RootIsCached(ledger, cache, s.d, s.claims, fits);
  }

  lemma MadeBelowCached(ledger: Ledger, cache: RootCache, s: Sent, fits: Json -> bool)
    requires ContextFor(ledger, cache, s.d, s.claims, fits).Contexted? && !Continues(ledger, s.d)
    ensures var r := ContextFor(ledger, cache, s.d, s.claims, fits);
            BelowCached(r.ledger, r.cache, |r.ledger| - 1, (s.d.pipeline, s.d.instance))
  {
    RootIsCached(ledger, cache, s.d, s.claims, fits);
  }

  lemma PassNext(ledger: Ledger, init: seq<Sent>, last: Sent, fits: Json -> bool) returns (r: Contexted)
    requires Pass(ledger, init + [last], fits).Passed?
    ensures var q := Pass(ledger, init, fits);
            q.Passed? && r == ContextFor(q.ledger, q.cache, last.d, last.claims, fits) && r.Contexted? &&
            Pass(ledger, init + [last], fits) == Passed(r.ledger, r.cache)
  {
    assert (init + [last])[..|init|] == init;
    var q := Pass(ledger, init, fits);
    r := ContextFor(q.ledger, q.cache, last.d, last.claims, fits);
  }

  lemma LastKeeps(ledger: Ledger, init: seq<Sent>, last: Sent, made: int, key: (string, string), fits: Json -> bool)
    requires Pass(ledger, init + [last], fits).Passed?
    requires var q := Pass(ledger, init, fits); q.Passed? && BelowCached(q.ledger, q.cache, made, key)
    ensures var p := Pass(ledger, init + [last], fits); BelowCached(p.ledger, p.cache, made, key)
  {
    var r := PassNext(ledger, init, last, fits);
    var q := Pass(ledger, init, fits);
    StaysBelowCached(q.ledger, q.cache, last, made, key, fits);
  }

  lemma LastMakes(ledger: Ledger, init: seq<Sent>, last: Sent, fits: Json -> bool)
    requires Pass(ledger, init + [last], fits).Passed?
    requires var q := Pass(ledger, init, fits); q.Passed? && !Continues(q.ledger, last.d)
    ensures var p := Pass(ledger, init + [last], fits);
            BelowCached(p.ledger, p.cache, |p.ledger| - 1, (last.d.pipeline, last.d.instance))
  {
    var r := PassNext(ledger, init, last, fits);
    var q := Pass(ledger, init, fits);
    MadeBelowCached(q.ledger, q.cache, last, fits);
  }

  lemma PassFront(ledger: Ledger, init: seq<Sent>, last: Sent, fits: Json -> bool)
    requires Pass(ledger, init + [last], fits).Passed?
    ensures Pass(ledger, init, fits).Passed?
  {
    assert (init + [last])[..|init|] == init;
  }

  /** A context stays below the root that is cached for it, and a front of a pass is one. */
  lemma {:induction false} RestKeeps(ledger: Ledger, front: seq<Sent>, rest: seq<Sent>, made: int,
                                     key: (string, string), fits: Json -> bool)
    requires Pass(ledger, front + rest, fits).Passed?
    ensures Pass(ledger, front, fits).Passed?
    ensures var q, p := Pass(ledger, front, fits), Pass(ledger, front + rest, fits);
            BelowCached(q.ledger, q.cache, made, key) ==> BelowCached(p.ledger, p.cache, made, key)
    decreases rest
  {
    if rest == [] {
      assert front + rest == front;
    } else {
      var n := |rest| - 1;
      assert front + rest == (front + rest[..n]) + [rest[n]];
      PassFront(ledger, front + rest[..n], rest[n], fits);
      RestKeeps(ledger, front, rest[..n], made, key, fits);
      var q := Pass(ledger, front + rest[..n], fits);
      if BelowCached(q.ledger, q.cache, made, key) {
        LastKeeps(ledger, front + rest[..n], rest[n], made, key, fits);
      }
    }
  }

  /** The position of the context that the last dispatch of a pass got. */
  function MadeLast(ledger: Ledger, sents: seq<Sent>, fits: Json -> bool): int {
    var p := Pass(ledger, sents, fits);
    if p.Passed? then |p.ledger| - 1 else -1
  }

  lemma PassCaches(ledger: Ledger, init: seq<Sent>, s: Sent, front: seq<Sent>, rest: seq<Sent>, made: int,
                   fits: Json -> bool)
    requires front == init + [s] && Pass(ledger, front + rest, fits).Passed?
    requires var q := Pass(ledger, init, fits); q.Passed? ==> !Continues(q.ledger, s.d)
    requires var q := Pass(ledger, front, fits); q.Passed? ==> made == |q.ledger| - 1
    ensures var p := Pass(ledger, front + rest, fits);
            BelowCached(p.ledger, p.cache, made, (s.d.pipeline, s.d.instance))
  {
    var key := (s.d.pipeline, s.d.instance);
    RestKeeps(ledger, front, rest, made, key, fits);
    var q := Pass(ledger, front, fits);
    assert BelowCached(q.ledger, q.cache, made, key) by {
      PassFront(ledger, init, s, fits);
      LastMakes(ledger, init, s, fits);
    }
  }

  /** Two dispatches of one pass into the same new pipeline instance share its root context. */
  lemma SharedRoot(ledger: Ledger, init: seq<Sent>, a: Sent, mid: seq<Sent>, b: Sent, fits: Json -> bool)
    requires Pass(ledger, ((init + [a]) + mid) + [b], fits).Passed?
    requires a.d.pipeline == b.d.pipeline && a.d.instance == b.d.instance
    requires var q := Pass(ledger, init, fits); q.Passed? ==> !Continues(q.ledger, a.d)
    requires var q := Pass(ledger, (init + [a]) + mid, fits); q.Passed? ==> !Continues(q.ledger, b.d)
    ensures var all := ((init + [a]) + mid) + [b];
            var p := Pass(ledger, all, fits).ledger;
            var i, j := MadeLast(ledger, init + [a], fits), MadeLast(ledger, all, fits);
            0 <= i < |p| && 0 <= j < |p| && p[i].parent == p[j].parent
  {
    var front := (init + [a]) + mid;
    assert front + [b] == (init + [a]) + (mid + [b]);
    PassCaches(ledger, init, a, init + [a], mid + [b], MadeLast(ledger, init + [a], fits), fits);
    PassFront(ledger, front, b, fits);
    LastMakes(ledger, front, b, fits);
  }

  // ---------------------------------------------------------------- every context is well formed

  ghost predicate PlanesOk(ledger: Ledger) {
    forall c: ContextId :: c < |ledger| ==> PlaneOk(ledger[c].accumulated)
  }

  lemma StampIsOk(maxDepth: int, id: string, depth: int)
    ensures PlaneOk(Obj(map[Namespace() := Obj(Stamp(maxDepth, id, depth))]))
  {
    FieldsDiffer();
    TrimIsTrimmed(id);
  }

  lemma MergedPlanesOk(plane: Object, stamp: Object)
    requires PlaneOk(Obj(map[Namespace() := Obj(plane)])) && PlaneOk(Obj(map[Namespace() := Obj(stamp)]))
    requires forall k :: k in stamp ==> !stamp[k].Obj?
    requires AccreteValue(Obj(plane), Obj(stamp), Namespace()).Merged?
    ensures var m := AccreteValue(Obj(plane), Obj(stamp), Namespace()).value;
            m.Obj? && PlaneOk(Obj(map[Namespace() := m]))
  {
    FieldsDiffer();
    if plane != stamp {
      var m := Accrete(Obj(plane), Obj(stamp), Namespace()).value;
      forall k | k in m.fields
        ensures (k in plane && m.fields[k] == plane[k]) || (k in stamp && m.fields[k] == stamp[k])
      {
        if k in plane && k in stamp {
          var v := AccreteValue(plane[k], stamp[k], JoinPath(Namespace(), k));
          assert v.Merged? && m.fields[k] == v.value;
        }
      }
    }
  }

  /** Whatever a stamped update set accretes to has a well-formed namespace. */
  lemma MergedIsOk(parent: Json, claims: Object, maxDepth: int, id: string, depth: int)
    requires PlaneOk(parent) && Claimable(claims)
    requires Accrete(parent, Obj(Stamped(claims, Stamp(maxDepth, id, depth))), "").Merged?
    ensures PlaneOk(Accrete(parent, Obj(Stamped(claims, Stamp(maxDepth, id, depth))), "").value)
  {
    FieldsDiffer();
    StampIsOk(maxDepth, id, depth);
    var stamp := Stamp(maxDepth, id, depth);
    var u := Stamped(claims, stamp);
    if Namespace() in parent.fields && Namespace() in u {
      assert AccreteValue(parent.fields[Namespace()], u[Namespace()], JoinPath("", Namespace())).Merged?;
      MergedPlanesOk(Plane(parent), stamp);
    }
  }

  lemma ParentKeepsPlanes(ledger: Ledger, cache: RootCache, d: Dispatch, fits: Json -> bool)
    requires PlanesOk(ledger) && ParentFor(ledger, cache, d, fits).Rooted?
    ensures PlanesOk(ParentFor(ledger, cache, d, fits).ledger)
  {
    if Trim(d.instance) != "" {
      SeedIsStamped(d);
      SeedIsOk(d.maxDepth, d.instance);
    }
  }

  /** Every context that routing creates has a well-formed namespace, whatever the dispatch. */
  lemma ContextKeepsPlanes(ledger: Ledger, cache: RootCache, d: Dispatch, claims: Object, fits: Json -> bool)
    requires PlanesOk(ledger) && Claimable(claims) && ContextFor(ledger, cache, d, claims, fits).Contexted?
    ensures PlanesOk(ContextFor(ledger, cache, d, claims, fits).ledger)
  {
    UpdatesAreStamped(claims, d);
    ParentKeepsPlanes(ledger, cache, d, fits);
    var p := ParentFor(ledger, cache, d, fits);
    if p.parent.Some? && p.parent.value < |p.ledger| {
      MergedIsOk(p.ledger[p.parent.value].accumulated, claims, d.maxDepth, d.instance, d.depth);
    } else {
      StampIsOk(d.maxDepth, d.instance, d.depth);
    }
  }

  lemma {:induction false} PassKeepsPlanes(ledger: Ledger, sents: seq<Sent>, fits: Json -> bool)
    requires PlanesOk(ledger) && Pass(ledger, sents, fits).Passed?
    requires forall i :: 0 <= i < |sents| ==> Claimable(sents[i].claims)
    ensures PlanesOk(Pass(ledger, sents, fits).ledger)
  {
    if sents != [] {
      var init, last := sents[..|sents| - 1], sents[|sents| - 1];
      PassKeepsPlanes(ledger, init, fits);
      var p := Pass(ledger, init, fits);
      ContextKeepsPlanes(p.ledger, p.cache, last.d, last.claims, fits);
    }
  }

  // ---------------------------------------------------------------- chains of hops

  /** A transition taken by the job of one context, after earlier dispatches of the same routing pass,
      and the context it gave the next job. */
  datatype Hop = Hop(
    before: Ledger, from: ContextId, route: Route, req: Request, earlier: seq<Sent>, d: Dispatch, claims: Object,
    after: Ledger, to: ContextId)

  /** Another event of the same job. */
  predicate SameJob(req: Request, other: Request) {
    other == req.(eventId := other.eventId, eventType := other.eventType)
  }

  /** What a routing pass of the job sends: transitions of its events, and triggers of new instances. */
  ghost predicate SentBy(net: Network, req: Request, d: Dispatch)
    requires Acyclic(net)
  {
    d.instance != req.instance ||
    exists route, other :: SameJob(req, other) && InNet(net, route) && Follows(net, route, other, d)
  }

  ghost predicate HopOk(net: Network, h: Hop, fits: Json -> bool)
    requires Acyclic(net)
  {
    h.from < |h.before| && h.req == RequestOf(h.before, h.from, h.req.job, h.req.eventId, h.req.eventType) &&
    InNet(net, h.route) && Follows(net, h.route, h.req, h.d) && Claimable(h.claims) &&
    (forall i :: 0 <= i < |h.earlier| ==> SentBy(net, h.req, h.earlier[i].d)) &&
    var p := Pass(h.before, h.earlier, fits);
    p.Passed? &&
    var r := ContextFor(p.ledger, p.cache, h.d, h.claims, fits);
    r.Contexted? && h.after == r.ledger && h.to == r.id
  }

  /** A routing pass sends one budget into each pipeline instance: the one the job has, or else the
      limit of the pipeline. */
  lemma PassHasOneBudget(net: Network, h: Hop, fits: Json -> bool)
    requires Acyclic(net) && HopOk(net, h, fits) && (h.req.maxDepth != 0 || OneDepth(net))
    ensures OneBudget(h.earlier, h.d) && Carries(h.req, h.d)
  {
    ResolveCarries(net, h.route, h.req);
    if h.req.maxDepth == 0 {
      ResolveBudget(net, h.route, h.req);
    }
    forall i | 0 <= i < |h.earlier|
      ensures SameBudget(h.earlier[i].d, h.d)
    {
      var d := h.earlier[i].d;
      if d.instance == h.req.instance {
        var route, other :| SameJob(h.req, other) && InNet(net, route) && Follows(net, route, other, d);
        ResolveCarries(net, route, other);
        if h.req.maxDepth == 0 {
          ResolveBudget(net, route, other);
        }
      }
    }
  }

  /** Each hop starts at the context the one before created; the ledger may grow in between. */
  ghost predicate Chain(net: Network, hops: seq<Hop>, fits: Json -> bool)
    requires Acyclic(net)
  {
    (forall i :: 0 <= i < |hops| ==> HopOk(net, hops[i], fits)) &&
    forall i :: 0 <= i < |hops| - 1 ==> hops[i + 1].from == hops[i].to && hops[i].after <= hops[i + 1].before
  }

  lemma GuardedHop(net: Network, h: Hop, fits: Json -> bool)
    requires Acyclic(net) && HopOk(net, h, fits) && PlaneOk(h.before[h.from].accumulated)
    requires MaxDepthOf(h.before[h.from].accumulated) > 0 || OneDepth(net)
    ensures h.to < |h.after|
    ensures var before, after := h.before[h.from].accumulated, h.after[h.to].accumulated;
            PlaneOk(after) && DepthOf(after) == DepthOf(before) + 1 && InstanceOf(after) == InstanceOf(before) &&
            (MaxDepthOf(before) > 0 ==> MaxDepthOf(after) == MaxDepthOf(before) && DepthOf(before) < MaxDepthOf(before))
  {
    PassHasOneBudget(net, h, fits);
    HopStep(h.before, h.earlier, h.from, h.req, h.d, h.claims, fits);
  }

  /** A hop leaves from the pipeline step that the context of its job is for, and arrives at the context
      of a step that the route leads to. */
  lemma HopConnects(net: Network, h: Hop, fits: Json -> bool)
    requires Acyclic(net) && HopOk(net, h, fits) && (h.req.maxDepth != 0 || OneDepth(net))
    ensures var source, before := h.route.source, h.before[h.from];
            Trim(source.pipeline) == Trim(before.pipeline) && Trim(source.step) == Trim(before.step) &&
            h.req.job == h.d.job && h.d.context == Some(h.from)
    ensures h.to < |h.after| && h.after[h.to].pipeline == h.d.pipeline && h.after[h.to].step == h.d.step &&
            Le(Obj(h.claims), h.after[h.to].accumulated)
  {
    PassHasOneBudget(net, h, fits);
    PlacedAt(h.before, h.earlier, h.d, h.claims, fits);
  }

  lemma NextHop(net: Network, hops: seq<Hop>, fits: Json -> bool, i: nat)
    requires Acyclic(net) && Chain(net, hops, fits) && i < |hops| - 1
    requires PlaneOk(hops[i].before[hops[i].from].accumulated)
    requires MaxDepthOf(hops[i].before[hops[i].from].accumulated) > 0
    ensures var h, g := hops[i], hops[i + 1];
            var here, there := h.before[h.from].accumulated, g.before[g.from].accumulated;
            PlaneOk(there) && DepthOf(there) == DepthOf(here) + 1 && MaxDepthOf(there) == MaxDepthOf(here)
  {
    GuardedHop(net, hops[i], fits);
  }

  lemma {:induction false} ChainDepth(net: Network, hops: seq<Hop>, fits: Json -> bool, i: nat)
    requires Acyclic(net) && Chain(net, hops, fits) && i < |hops| && PlaneOk(hops[0].before[hops[0].from].accumulated)
    requires MaxDepthOf(hops[0].before[hops[0].from].accumulated) > 0
    ensures var start, here := hops[0].before[hops[0].from].accumulated, hops[i].before[hops[i].from].accumulated;
            PlaneOk(here) && DepthOf(here) == DepthOf(start) + i && MaxDepthOf(here) == MaxDepthOf(start)
  {
    if i > 0 {
      var j := i - 1;
      ChainDepth(net, hops, fits, j);
      NextHop(net, hops, fits, j);
      assert j + 1 == i;
    }
  }

  /** The loop guard: once a context carries a positive budget, every chain of consecutive
      transitions, through calls or not, is no longer than the budget, and its last context is as
      deep as the chain is long. */
  lemma LoopGuardHolds(net: Network, hops: seq<Hop>, fits: Json -> bool)
    requires Acyclic(net) && Chain(net, hops, fits) && hops != []
    requires PlaneOk(hops[0].before[hops[0].from].accumulated)
    requires MaxDepthOf(hops[0].before[hops[0].from].accumulated) > 0
    ensures var start := hops[0].before[hops[0].from].accumulated;
            var h := hops[|hops| - 1];
            |hops| <= MaxDepthOf(start) - DepthOf(start) <= MaxDepthOf(start) && h.to < |h.after| &&
            DepthOf(h.after[h.to].accumulated) == DepthOf(start) + |hops| &&
            MaxDepthOf(h.after[h.to].accumulated) == MaxDepthOf(start)
  {
    ChainDepth(net, hops, fits, |hops| - 1);
    GuardedHop(net, hops[|hops| - 1], fits);
  }
}
