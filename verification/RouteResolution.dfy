/** What resolving a route yields: one dispatch per plugin step that calls lead to, in manifest order. */
module RouteResolution {
  import opened Base
  import opened Router

  /** An entry route of a pipeline: its own, and started by a trigger or a hook. */
  predicate IsEntry(route: Route, pipeline: string) {
    route.pipeline == pipeline && (route.source.trigger != "" || route.source.hook != "")
  }

  /** The route that calls lead to, when the call at each level takes the entry route of this position. */
  function RouteAt(net: Network, route: Route, path: seq<nat>): Option<Route>
    decreases path
  {
    if path == [] then Some(route)
    else if !route.destination.Call? then None
    else
      var called := Trim(route.destination.target);
      if called == "" || called !in net.routes || path[0] >= |net.routes[called]| ||
         !IsEntry(net.routes[called][path[0]], called)
      then None
      else RouteAt(net, net.routes[called][path[0]], path[1..])
  }

  /** The path leads to a plugin step. */
  predicate IsLeaf(net: Network, route: Route, path: seq<nat>) {
    var r := RouteAt(net, route, path);
    r.Some? && r.value.destination.Uses?
  }

  /** Manifest order: the position at the first level that differs decides. */
  predicate Precedes(p: seq<nat>, q: seq<nat>) {
    p != [] && q != [] && (p[0] < q[0] || (p[0] == q[0] && Precedes(p[1..], q[1..])))
  }

  ghost predicate InOrder(paths: seq<seq<nat>>) {
    forall i, j :: 0 <= i < j < |paths| ==> Precedes(paths[i], paths[j])
  }

  /** A call whose target is blank, unknown, or has no entry route. */
  predicate BadCall(net: Network, route: Route) {
    route.destination.Call? &&
    var called := Trim(route.destination.target);
    called == "" || called !in net.routes ||
    forall i :: 0 <= i < |net.routes[called]| ==> !IsEntry(net.routes[called][i], called)
  }

  ghost predicate LeadsToBadCall(net: Network, route: Route, path: seq<nat>) {
    var r := RouteAt(net, route, path);
    r.Some? && BadCall(net, r.value)
  }

  /** The dispatch of a plugin step for a request. */
  predicate IsDispatchOf(d: Dispatch, route: Route, req: Request) {
    route.destination.Uses? &&
    d.plugin == route.destination.plugin && d.command == route.destination.command &&
    d.step == route.destination.step && d.pipeline == route.pipeline && d.instance == req.instance &&
    d.depth == req.depth + 1 && d.job == req.job && d.context == req.context && d.eventId == req.eventId &&
    d.maxDepth == if req.maxDepth != 0 then req.maxDepth else route.source.depthLt
  }

  ghost predicate Lists(net: Network, route: Route, req: Request, paths: seq<seq<nat>>, ds: seq<Dispatch>) {
    InOrder(paths) && (forall path :: path in paths <==> IsLeaf(net, route, path)) && |ds| == |paths| &&
    forall i :: 0 <= i < |ds| ==>
      var r := RouteAt(net, route, paths[i]);
      r.Some? && IsDispatchOf(ds[i], r.value, req)
  }

  // ---------------------------------------------------------------- the entry routes from a position on

  /** The leaves below the entry routes of a pipeline from this position on. */
  predicate IsLeafFrom(net: Network, called: string, from: nat, path: seq<nat>)
    requires called in net.routes
  {
    path != [] && from <= path[0] < |net.routes[called]| && IsEntry(net.routes[called][path[0]], called) &&
    IsLeaf(net, net.routes[called][path[0]], path[1..])
  }

  ghost predicate ListsFrom(net: Network, called: string, from: nat, req: Request, paths: seq<seq<nat>>,
                            ds: seq<Dispatch>)
    requires called in net.routes
  {
    InOrder(paths) && (forall path :: path in paths <==> IsLeafFrom(net, called, from, path)) && |ds| == |paths| &&
    forall i :: 0 <= i < |ds| ==>
      paths[i] != [] && paths[i][0] < |net.routes[called]| &&
      var r := RouteAt(net, net.routes[called][paths[i][0]], paths[i][1..]);
      r.Some? && IsDispatchOf(ds[i], r.value, req)
  }

  function Under(n: nat, paths: seq<seq<nat>>): seq<seq<nat>> {
    seq(|paths|, i requires 0 <= i < |paths| => [n] + paths[i])
  }

  /** Leaves below one entry, then those of the entries behind it. */
  lemma JoinLists(net: Network, called: string, from: nat, req: Request, paths: seq<seq<nat>>, ds: seq<Dispatch>,
                  rest: seq<seq<nat>>, ds': seq<Dispatch>)
    requires called in net.routes && from < |net.routes[called]| && IsEntry(net.routes[called][from], called)
    requires Lists(net, net.routes[called][from], req, paths, ds) && ListsFrom(net, called, from + 1, req, rest, ds')
    ensures ListsFrom(net, called, from, req, Under(from, paths) + rest, ds + ds')
  {
    var all := Under(from, paths) + rest;
    JoinInOrder(from, paths, rest, net, called);
    forall path
      ensures path in all <==> IsLeafFrom(net, called, from, path)
    {
      if path != [] && path[0] == from {
        assert path == [from] + path[1..];
        if path[1..] in paths {
          var i :| 0 <= i < |paths| && paths[i] == path[1..];
          assert all[i] == path;
        }
        if path in all {
          assert !IsLeafFrom(net, called, from + 1, path) && path !in rest;
          var i :| 0 <= i < |paths| && Under(from, paths)[i] == path;
          assert path[1..] == paths[i];
        }
      } else {
        assert path in rest <==> IsLeafFrom(net, called, from + 1, path);
        assert path !in Under(from, paths);
      }
    }
    forall i | 0 <= i < |ds + ds'|
      ensures all[i] != [] && all[i][0] < |net.routes[called]| &&
              var r := RouteAt(net, net.routes[called][all[i][0]], all[i][1..]);
              r.Some? && IsDispatchOf((ds + ds')[i], r.value, req)
    {
      if i < |ds| {
        assert all[i][1..] == paths[i];
      }
    }
  }

  lemma JoinInOrder(from: nat, paths: seq<seq<nat>>, rest: seq<seq<nat>>, net: Network, called: string)
    requires called in net.routes && InOrder(paths) && InOrder(rest)
    requires forall path :: path in rest ==> IsLeafFrom(net, called, from + 1, path)
    ensures InOrder(Under(from, paths) + rest)
  {
    var all := Under(from, paths) + rest;
    forall i, j | 0 <= i < j < |all|
      ensures Precedes(all[i], all[j])
    {
      if j < |paths| {
        assert all[i][1..] == paths[i] && all[j][1..] == paths[j];
      } else if i < |paths| {
        assert all[j] in rest;
      }
    }
  }

  // ---------------------------------------------------------------- resolution

  lemma EntriesFrom(net: Network, called: string, from: nat)
    requires called in net.routes && from < |net.routes[called]|
    ensures var routes := net.routes[called];
            EntryRoutes(routes[from..], called) ==
            (if IsEntry(routes[from], called) then [routes[from]] else []) + EntryRoutes(routes[from + 1..], called)
  {
    assert net.routes[called][from..][1..] == net.routes[called][from + 1..];
  }

  /** A plugin step, or the end of a pipeline. */
  lemma PlainLists(net: Network, route: Route, req: Request) returns (paths: seq<seq<nat>>)
    requires Acyclic(net) && CallFalls(net, route) && !route.destination.Call?
    ensures Resolve(net, route, req).Some? && Lists(net, route, req, paths, Resolve(net, route, req).value)
  {
    paths := if route.destination.Uses? then [[]] else [];
    forall path
      ensures path in paths <==> IsLeaf(net, route, path)
    {
    }
  }

  /** Resolving, if it succeeds, yields exactly one dispatch for each plugin step that calls lead to, in
      manifest order, with that step's own target and pipeline. */
  lemma {:induction false} ResolveLists(net: Network, route: Route, req: Request) returns (paths: seq<seq<nat>>)
    requires Acyclic(net) && CallFalls(net, route)
    ensures Resolve(net, route, req).Some? ==> Lists(net, route, req, paths, Resolve(net, route, req).value)
    decreases Rank(net, route.pipeline), 1, 0
  {
    if !route.destination.Call? {
      paths := PlainLists(net, route, req);
    } else if Resolve(net, route, req).Some? {
      var called := Trim(route.destination.target);
      assert net.routes[called][0..] == net.routes[called];
      paths := ResolveListsFrom(net, called, 0, req);
      CallLists(net, route, req, paths, Resolve(net, route, req).value);
    } else {
      paths := [];
    }
  }

  lemma CallLists(net: Network, route: Route, req: Request, paths: seq<seq<nat>>, ds: seq<Dispatch>)
    requires route.destination.Call? && Trim(route.destination.target) != ""
    requires Trim(route.destination.target) in net.routes
    requires ListsFrom(net, Trim(route.destination.target), 0, req, paths, ds)
    ensures Lists(net, route, req, paths, ds)
  {
    var called := Trim(route.destination.target);
    forall path
      ensures path in paths <==> IsLeaf(net, route, path)
    {
      assert path in paths <==> IsLeafFrom(net, called, 0, path);
    }
    forall i | 0 <= i < |ds|
      ensures var r := RouteAt(net, route, paths[i]); r.Some? && IsDispatchOf(ds[i], r.value, req)
    {
      assert paths[i] in paths;
    }
  }

  lemma {:induction false} ResolveListsFrom(net: Network, called: string, from: nat, req: Request)
    returns (paths: seq<seq<nat>>)
    requires Acyclic(net) && called in net.routes && from <= |net.routes[called]|
    requires ResolveAll(net, called, EntryRoutes(net.routes[called][from..], called), req).Some?
    ensures ListsFrom(net, called, from, req, paths,
                      ResolveAll(net, called, EntryRoutes(net.routes[called][from..], called), req).value)
    decreases Rank(net, called), 2, |net.routes[called]| - from
  {
    var routes := net.routes[called];
    paths := [];
    if from < |routes| {
      EntriesFrom(net, called, from);
      var rest := EntryRoutes(routes[from + 1..], called);
      if IsEntry(routes[from], called) {
        assert CallFalls(net, routes[from]);
        assert ([routes[from]] + rest)[1..] == rest;
        var first := ResolveLists(net, routes[from], req);
        var behind := ResolveListsFrom(net, called, from + 1, req);
        paths := Under(from, first) + behind;
        JoinLists(net, called, from, req, first, Resolve(net, routes[from], req).value,
                  behind, ResolveAll(net, called, rest, req).value);
      } else {
        assert [] + rest == rest;
        paths := ResolveListsFrom(net, called, from + 1, req);
        SkipEntry(net, called, from, req, paths, ResolveAll(net, called, rest, req).value);
      }
    }
  }

  lemma SkipEntry(net: Network, called: string, from: nat, req: Request, paths: seq<seq<nat>>, ds: seq<Dispatch>)
    requires called in net.routes && from < |net.routes[called]| && !IsEntry(net.routes[called][from], called)
    requires ListsFrom(net, called, from + 1, req, paths, ds)
    ensures ListsFrom(net, called, from, req, paths, ds)
  {
    forall path
      ensures path in paths <==> IsLeafFrom(net, called, from, path)
    {
      assert path in paths <==> IsLeafFrom(net, called, from + 1, path);
    }
  }

  // ---------------------------------------------------------------- errors

  lemma {:induction false} NoEntries(routes: seq<Route>, pipeline: string)
    ensures EntryRoutes(routes, pipeline) == [] <==> forall i :: 0 <= i < |routes| ==> !IsEntry(routes[i], pipeline)
  {
    if routes != [] {
      NoEntries(routes[1..], pipeline);
      assert forall i :: 0 < i < |routes| ==> routes[i] == routes[1..][i - 1];
    }
  }

  /** Resolving fails exactly if calls lead to one with a blank, unknown or entry-less target. */
  lemma {:induction false} ResolveFailsIff(net: Network, route: Route, req: Request)
    requires Acyclic(net) && CallFalls(net, route)
    ensures Resolve(net, route, req).None? <==> exists path :: LeadsToBadCall(net, route, path)
    decreases Rank(net, route.pipeline), 1, 0
  {
    if !route.destination.Call? {
      assert forall path :: !LeadsToBadCall(net, route, path);
    } else if BadCall(net, route) {
      var called := Trim(route.destination.target);
      if called in net.routes {
        NoEntries(net.routes[called], called);
      }
      assert LeadsToBadCall(net, route, []);
    } else {
      var called := Trim(route.destination.target);
      NoEntries(net.routes[called], called);
      assert net.routes[called][0..] == net.routes[called];
      ResolveFailsFromIff(net, called, 0, req);
      FailsBelowIff(net, route);
    }
  }

  ghost predicate BadFrom(net: Network, called: string, from: nat, path: seq<nat>)
    requires called in net.routes
  {
    path != [] && from <= path[0] < |net.routes[called]| && IsEntry(net.routes[called][path[0]], called) &&
    LeadsToBadCall(net, net.routes[called][path[0]], path[1..])
  }

  lemma FailsBelowIff(net: Network, route: Route)
    requires route.destination.Call? && !BadCall(net, route)
    ensures var called := Trim(route.destination.target);
            called in net.routes &&
            ((exists path :: BadFrom(net, called, 0, path)) <==> exists path :: LeadsToBadCall(net, route, path))
  {
    var called := Trim(route.destination.target);
    forall path
      ensures BadFrom(net, called, 0, path) <==> LeadsToBadCall(net, route, path)
    {
    }
  }

  lemma {:induction false} ResolveFailsFromIff(net: Network, called: string, from: nat, req: Request)
    requires Acyclic(net) && called in net.routes && from <= |net.routes[called]|
    ensures ResolveAll(net, called, EntryRoutes(net.routes[called][from..], called), req).None? <==>
            exists path :: BadFrom(net, called, from, path)
    decreases Rank(net, called), 2, |net.routes[called]| - from
  {
    var routes := net.routes[called];
    if from < |routes| {
      EntriesFrom(net, called, from);
      var rest := EntryRoutes(routes[from + 1..], called);
      ResolveFailsFromIff(net, called, from + 1, req);
      if IsEntry(routes[from], called) {
        assert CallFalls(net, routes[from]);
        assert ([routes[from]] + rest)[1..] == rest;
        ResolveFailsIff(net, routes[from], req);
      } else {
        assert [] + rest == rest;
      }
      SplitBad(net, called, from, from + 1);
    }
  }

  lemma SplitBad(net: Network, called: string, from: nat, next: nat)
    requires called in net.routes && from < |net.routes[called]| && next == from + 1
    ensures (exists path :: BadFrom(net, called, from, path)) <==>
            (exists path :: BadFrom(net, called, next, path)) ||
            (IsEntry(net.routes[called][from], called) &&
             exists path :: LeadsToBadCall(net, net.routes[called][from], path))
  {
    var route := net.routes[called][from];
    if path :| BadFrom(net, called, from, path) {
      assert path[0] == from || BadFrom(net, called, next, path);
    }
    if path :| BadFrom(net, called, next, path) {
      assert BadFrom(net, called, from, path);
    }
    if IsEntry(route, called) {
      if path :| LeadsToBadCall(net, route, path) {
        assert ([from] + path)[1..] == path;
        assert BadFrom(net, called, from, [from] + path);
      }
    }
  }

  // ---------------------------------------------------------------- which routes are followed

  /** A transition is taken exactly from its own step, for its event type or any, within an instance,
      and while the depth is below the budget of the job, or else below the limit of the route. */
  lemma TakenIff(source: Source, req: Request)
    ensures Matches(source, req) <==>
            Trim(req.pipeline) == Trim(source.pipeline) && Trim(req.step) == Trim(source.step) &&
            (source.eventType == "" || Trim(req.eventType) == Trim(source.eventType)) && Trim(req.instance) != "" &&
            (if req.maxDepth != 0 then req.maxDepth < 0 || req.depth < req.maxDepth
             else source.depthLt <= 0 || req.depth < source.depthLt)
  {
  }

  /** Two dispatches are the same for deduplication exactly if target, place, instance and event agree. */
  lemma SameKeyIff(a: Dispatch, b: Dispatch)
    ensures Key(a) == Key(b) <==>
            a.pipeline == b.pipeline && a.step == b.step && a.instance == b.instance && a.plugin == b.plugin &&
            a.command == b.command && a.eventId == b.eventId
  {
    assert forall d: Dispatch :: |Key(d)| == 6;
    if Key(a) == Key(b) {
      assert forall i :: 0 <= i < 6 ==> Key(a)[i] == Key(b)[i];
      assert Key(a)[0] == a.pipeline && Key(a)[1] == a.step && Key(a)[2] == a.instance;
      assert Key(a)[3] == a.plugin && Key(a)[4] == a.command && Key(a)[5] == a.eventId;
    }
  }
}
