/** Resolution of an emitted event to downstream dispatches along compiled routes. */
module Router {
  import opened Base

  datatype Destination = Uses(step: string, plugin: string, command: string) | Call(target: string) | Terminal

  datatype Source = Source(
    trigger: string, hook: string, pipeline: string, step: string, eventType: string, depthLt: int)

  datatype Route = Route(pipeline: string, source: Source, destination: Destination)

  /** The compiled routes of every pipeline in manifest order, with a rank that falls along calls;
      the compiler refuses call cycles. */
  datatype Network = Network(routes: map<string, seq<Route>>, rank: map<string, nat>)

  datatype Request = Request(
    pipeline: string, step: string, instance: string, depth: int, maxDepth: int,
    job: string, context: Option<nat>, eventId: string, eventType: string)

  datatype Dispatch = Dispatch(
    plugin: string, command: string, pipeline: string, step: string, instance: string, depth: int, maxDepth: int,
    job: string, context: Option<nat>, eventId: string)

  function Rank(net: Network, pipeline: string): nat {
    if pipeline in net.rank then net.rank[pipeline] else 0
  }

  predicate Acyclic(net: Network) {
    forall p :: p in net.routes ==>
      forall i :: 0 <= i < |net.routes[p]| && net.routes[p][i].destination.Call? ==>
        CallFalls(net, net.routes[p][i])
  }

  predicate CallFalls(net: Network, route: Route) {
    route.destination.Call? ==> Rank(net, Trim(route.destination.target)) < Rank(net, route.pipeline)
  }

  /** The entry routes of a pipeline: its own routes that start at a trigger or a hook. */
  function EntryRoutes(routes: seq<Route>, pipeline: string): (r: seq<Route>)
    ensures forall i :: 0 <= i < |r| ==> r[i] in routes && r[i].pipeline == pipeline
  {
    if routes == [] then []
    else
      (if routes[0].pipeline == pipeline && (routes[0].source.trigger != "" || routes[0].source.hook != "")
       then [routes[0]] else []) + EntryRoutes(routes[1..], pipeline)
  }

  /** resolveCompiledRoute: a call resolves to the entry routes of the called pipeline; None is an error. */
  function Resolve(net: Network, route: Route, req: Request): Option<seq<Dispatch>>
    requires Acyclic(net) && CallFalls(net, route)
    decreases Rank(net, route.pipeline), 1, 0
  {
    match route.destination
    case Uses(step, plugin, command) =>
      Some([Dispatch(plugin, command, route.pipeline, step, req.instance, req.depth + 1,
                     if req.maxDepth == 0 then route.source.depthLt else req.maxDepth,
                     req.job, req.context, req.eventId)])
    case Call(target) =>
      var called := Trim(target);
      if called == "" || called !in net.routes then None
      else
        var entries := EntryRoutes(net.routes[called], called);
        if entries == [] then None else ResolveAll(net, called, entries, req)
    case Terminal => Some([])
  }

  function ResolveAll(net: Network, called: string, entries: seq<Route>, req: Request): Option<seq<Dispatch>>
    requires Acyclic(net) && called in net.routes
    requires forall i :: 0 <= i < |entries| ==> entries[i] in net.routes[called] && entries[i].pipeline == called
    decreases Rank(net, called), 2, |entries|
  {
    if entries == [] then Some([])
    else
      assert entries[0] in net.routes[called] && CallFalls(net, entries[0]);
      var head := Resolve(net, entries[0], req);
      var tail := ResolveAll(net, called, entries[1..], req);
      if head.None? || tail.None? then None else Some(head.value + tail.value)
  }

  /** matchesCompiledRouteSource for a transition route, with the depth guard. */
  predicate Matches(source: Source, req: Request) {
    Trim(source.pipeline) == Trim(req.pipeline) && Trim(source.step) == Trim(req.step) &&
    (source.eventType != "" ==> Trim(source.eventType) == Trim(req.eventType)) && Trim(req.instance) != "" &&
    var maxDepth := if req.maxDepth == 0 then source.depthLt else req.maxDepth;
    !(maxDepth > 0 && req.depth >= maxDepth)
  }

  predicate IsTransition(source: Source) {
    source.trigger == "" && source.hook == "" && source.pipeline != "" && source.step != ""
  }

  /** The event follows this route out of the step it came from, and the dispatch is one of its results. */
  predicate Follows(net: Network, route: Route, req: Request, d: Dispatch)
    requires Acyclic(net)
  {
    CallFalls(net, route) && IsTransition(route.source) && Matches(route.source, req) &&
    Resolve(net, route, req).Some? && d in Resolve(net, route, req).value
  }

  // ---------------------------------------------------------------- dispatch keys

  /** The key under which dedupeDispatches recognises a repeated dispatch. */
  function Key(d: Dispatch): seq<string> {
    [d.pipeline, d.step, d.instance, d.plugin, d.command, d.eventId]
  }

  ghost predicate FirstOfKey(ds: seq<Dispatch>, i: nat)
    requires i < |ds|
  {
    forall j :: 0 <= j < i ==> Key(ds[j]) != Key(ds[i])
  }

  /** The dispatches that are the first of their key, in order. */
  ghost function Firsts(ds: seq<Dispatch>): seq<Dispatch> {
    if ds == [] then []
    else
      var n := |ds| - 1;
      Firsts(ds[..n]) + if FirstOfKey(ds, n) then [ds[n]] else []
  }

  method DedupeDispatches(ds: seq<Dispatch>) returns (out: seq<Dispatch>)
    ensures out == Firsts(ds)
  {
    var seen: set<seq<string>> := {};
    out := [];
    for i := 0 to |ds|
      invariant forall k :: k in seen <==> exists j :: 0 <= j < i && Key(ds[j]) == k
      invariant out == Firsts(ds[..i])
    {
      assert ds[..i + 1][..i] == ds[..i];
      assert Key(ds[i]) !in seen <==> FirstOfKey(ds[..i + 1], i);
      if Key(ds[i]) !in seen {
        seen := seen + {Key(ds[i])};
        out := out + [ds[i]];
      }
    }
    assert ds[..|ds|] == ds;
  }

  ghost predicate HasKey(ds: seq<Dispatch>, k: seq<string>) {
    exists d :: d in ds && Key(d) == k
  }

  /** Deduplication keeps exactly one dispatch of every key. */
  lemma {:induction false} FirstsAreDistinct(ds: seq<Dispatch>)
    ensures forall k :: HasKey(ds, k) <==> HasKey(Firsts(ds), k)
    ensures forall i, j :: 0 <= i < j < |Firsts(ds)| ==> Key(Firsts(ds)[i]) != Key(Firsts(ds)[j])
    ensures forall d :: d in Firsts(ds) ==> d in ds
  {
    if ds != [] {
      var n := |ds| - 1;
      var init := ds[..n];
      FirstsAreDistinct(init);
      assert ds == init + [ds[n]];
      if FirstOfKey(ds, n) {
        assert forall d :: d in init ==> Key(d) != Key(ds[n]);
      } else {
        var j :| 0 <= j < n && Key(ds[j]) == Key(ds[n]);
        assert ds[j] in init && HasKey(init, Key(ds[n]));
      }
      forall k
        ensures HasKey(ds, k) <==> HasKey(init, k) || k == Key(ds[n])
      {
        assert HasKey(init, k) ==> HasKey(ds, k);
        assert ds[n] in ds;
      }
      if FirstOfKey(ds, n) {
        forall k
          ensures HasKey(Firsts(ds), k) <==> HasKey(Firsts(init), k) || k == Key(ds[n])
        {
          assert ds[n] in Firsts(ds);
          if HasKey(Firsts(init), k) {
            var e :| e in Firsts(init) && Key(e) == k;
            assert e in Firsts(ds);
          }
        }
      }
    }
  }

  /** No dispatch before this one has its key. */
  ghost predicate IsNewKey(ds: seq<Dispatch>, i: nat)
    requires i < |ds|
  {
    forall j :: 0 <= j < i ==> Key(ds[j]) != Key(ds[i])
  }

  /** The dispatches at these positions, in order, are exactly those with a new key. */
  ghost predicate Picks(ds: seq<Dispatch>, at: seq<nat>, out: seq<Dispatch>) {
    |at| == |out| && (forall k :: 0 <= k < |at| ==> at[k] < |ds| && out[k] == ds[at[k]]) &&
    (forall k, l :: 0 <= k < l < |at| ==> at[k] < at[l]) &&
    forall i: nat :: i < |ds| ==> (i in at <==> IsNewKey(ds, i))
  }

  lemma PicksNext(ds: seq<Dispatch>, at: seq<nat>, out: seq<Dispatch>, d: Dispatch)
    requires Picks(ds, at, out)
    ensures var all := ds + [d];
            if IsNewKey(all, |ds|) then Picks(all, at + [|ds|], out + [d]) else Picks(all, at, out)
  {
    var all := ds + [d];
    forall i: nat | i < |ds|
      ensures IsNewKey(all, i) <==> IsNewKey(ds, i)
    {
      assert forall j :: 0 <= j <= i ==> all[j] == ds[j];
    }
    assert |ds| !in at;
    forall i: nat | i < |ds|
      ensures i in at <==> i in at + [|ds|]
    {
    }
  }

  /** Deduplication keeps the first dispatch of each key, in order. */
  lemma {:induction false} FirstsAreFirst(ds: seq<Dispatch>) returns (at: seq<nat>)
    ensures Picks(ds, at, Firsts(ds))
  {
    at := [];
    if ds != [] {
      var n := |ds| - 1;
      at := FirstsAreFirst(ds[..n]);
      PicksNext(ds[..n], at, Firsts(ds[..n]), ds[n]);
      assert ds == ds[..n] + [ds[n]];
      if IsNewKey(ds, n) {
        at := at + [n];
      } else {
        assert Firsts(ds) == Firsts(ds[..n]) + [];
      }
    }
  }
}
