/**
 The view of one host in a routing projection (internal/control/control.go), by scanning every app
 and by the index built over them. `norm` stands for the normalization of host names.
 */
module HostIndex {
  import opened Bytes

  datatype Route = Route(host: string, path: string, worker: string)

  /** `ptr` stands for the pointer fields of a worker's active version. */
  datatype Worker = Worker(name: string, ptr: nat)

  datatype App = App(namespace: string, routes: seq<Route>, workers: seq<Worker>)

  datatype HostRoute = HostRoute(namespace: string, path: string, worker: string)

  datatype View = View(routes: seq<HostRoute>, workers: map<string, nat>, conflicts: bool)

  /** Route `route` of app `app`. */
  datatype Ref = Ref(app: nat, route: nat)

  function KeyOf(namespace: string, worker: string): string { namespace + "/" + worker }

  // ------------------------------------------------------------------ what a view is

  /** The references to host h among the first n routes of app a. */
  function AppRefs(apps: seq<App>, a: nat, n: nat, h: string, norm: string -> string): seq<Ref>
    requires a < |apps| && n <= |apps[a].routes|
  {
    if n == 0 then []
    else AppRefs(apps, a, n - 1, h, norm) + if norm(apps[a].routes[n - 1].host) == h then [Ref(a, n - 1)] else []
  }

  /** The references to host h in the first m apps, in projection order. */
  function Refs(apps: seq<App>, m: nat, h: string, norm: string -> string): seq<Ref>
    requires m <= |apps|
  {
    if m == 0 then [] else Refs(apps, m - 1, h, norm) + AppRefs(apps, m - 1, |apps[m - 1].routes|, h, norm)
  }

  predicate InRange(apps: seq<App>, r: Ref) { r.app < |apps| && r.route < |apps[r.app].routes| }

  function RouteAt(apps: seq<App>, r: Ref): HostRoute
    requires InRange(apps, r)
  {
    var rt := apps[r.app].routes[r.route];
    HostRoute(apps[r.app].namespace, rt.path, rt.worker)
  }

  /** The worker of that name an app lists last, among its first n. */
  function FindLast(workers: seq<Worker>, n: nat, name: string): Option<nat>
    requires n <= |workers|
  {
    if n == 0 then None
    else if workers[n - 1].name == name then Some(workers[n - 1].ptr)
    else FindLast(workers, n - 1, name)
  }

  function PtrAt(apps: seq<App>, r: Ref): Option<nat>
    requires InRange(apps, r)
  {
    FindLast(apps[r.app].workers, |apps[r.app].workers|, apps[r.app].routes[r.route].worker)
  }

  predicate AllInRange(apps: seq<App>, refs: seq<Ref>) { forall i | 0 <= i < |refs| :: InRange(apps, refs[i]) }

  /** The routes of the references, and the first pointer found for each worker. */
  function RoutesOf(apps: seq<App>, refs: seq<Ref>): seq<HostRoute>
    requires AllInRange(apps, refs)
  {
    seq(|refs|, i requires 0 <= i < |refs| => RouteAt(apps, refs[i]))
  }

  function AddPtr(workers: map<string, nat>, key: string, ptr: Option<nat>): map<string, nat>
  {
    if key in workers || ptr.None? then workers else workers[key := ptr.value]
  }

  function WorkersOf(apps: seq<App>, refs: seq<Ref>): map<string, nat>
    requires AllInRange(apps, refs)
  {
    if refs == [] then map[]
    else
      var last := refs[|refs| - 1];
      assert InRange(apps, last);
      AddPtr(WorkersOf(apps, refs[..|refs| - 1]),
             KeyOf(apps[last.app].namespace, apps[last.app].routes[last.route].worker), PtrAt(apps, last))
  }

  /** Two routes of the host have the same path. */
  predicate Conflicting(routes: seq<HostRoute>)
  {
    exists i, j :: 0 <= i < j < |routes| && routes[i].path == routes[j].path
  }

  ghost predicate IsView(v: View, apps: seq<App>, refs: seq<Ref>)
    requires AllInRange(apps, refs)
  {
    v.routes == RoutesOf(apps, refs) && v.workers == WorkersOf(apps, refs) && (v.conflicts <==> Conflicting(v.routes))
  }

  lemma {:induction false} AppRefsInRange(apps: seq<App>, a: nat, n: nat, h: string, norm: string -> string)
    requires a < |apps| && n <= |apps[a].routes|
    ensures AllInRange(apps, AppRefs(apps, a, n, h, norm))
  {
    if n > 0 { AppRefsInRange(apps, a, n - 1, h, norm); }
  }

  lemma {:induction false} RefsInRange(apps: seq<App>, m: nat, h: string, norm: string -> string)
    requires m <= |apps|
    ensures AllInRange(apps, Refs(apps, m, h, norm))
  {
    if m > 0 {
      RefsInRange(apps, m - 1, h, norm);
      AppRefsInRange(apps, m - 1, |apps[m - 1].routes|, h, norm);
    }
  }

  lemma ViewStep(apps: seq<App>, refs: seq<Ref>, r: Ref)
    requires AllInRange(apps, refs) && InRange(apps, r)
    ensures AllInRange(apps, refs + [r])
    ensures RoutesOf(apps, refs + [r]) == RoutesOf(apps, refs) + [RouteAt(apps, r)]
    ensures WorkersOf(apps, refs + [r])
            == AddPtr(WorkersOf(apps, refs), KeyOf(apps[r.app].namespace, apps[r.app].routes[r.route].worker), PtrAt(apps, r))
  {
    assert (refs + [r])[..|refs|] == refs;
  }

  // ------------------------------------------------------------------ the scan

  method LastWorker(workers: seq<Worker>, name: string) returns (ptr: Option<nat>)
    ensures ptr == FindLast(workers, |workers|, name)
  {
    ptr := None;
    var i := 0;
    while i < |workers|
      invariant 0 <= i <= |workers| && ptr == FindLast(workers, i, name)
    {
      if workers[i].name == name { ptr := Some(workers[i].ptr); }
      i := i + 1;
    }
  }

  /** How often each path occurs. */
  method CountPaths(routes: seq<HostRoute>) returns (conflicts: bool)
    ensures conflicts <==> Conflicting(routes)
  {
    var paths: map<string, nat> := map[];
    conflicts := false;
    var i := 0;
    while i < |routes|
      invariant 0 <= i <= |routes|
      invariant forall p :: p in paths <==> exists j | 0 <= j < i :: routes[j].path == p
      invariant conflicts <==> exists j, k :: 0 <= j < k < i && routes[j].path == routes[k].path
    {
      var p := routes[i].path;
      if p in paths {
        conflicts := true;
        paths := paths[p := paths[p] + 1];
      } else {
        paths := paths[p := 1];
      }
      i := i + 1;
    }
  }

  /** HostView without an index. */
  method Scan(apps: seq<App>, h: string, norm: string -> string) returns (v: View)
    ensures AllInRange(apps, Refs(apps, |apps|, h, norm)) && IsView(v, apps, Refs(apps, |apps|, h, norm))
  {
    var routes, workers := [], map[];
    var a := 0;
    ghost var refs := [];
    NoRefs(apps);
    hide RoutesOf, WorkersOf, AppRefs, Through, InRange;
    while a < |apps|
      invariant 0 <= a <= |apps| && refs == Refs(apps, a, h, norm) && AllInRange(apps, refs)
      invariant routes == RoutesOf(apps, refs) && workers == WorkersOf(apps, refs)
    {
      routes, workers := ScanApp(apps, a, h, norm, routes, workers, refs);
      ThroughNone(apps, refs, a, h, norm);
      refs := refs + AppRefs(apps, a, |apps[a].routes|, h, norm);
      a := a + 1;
    }
    var conflicts := CountPaths(routes);
    v := View(routes, workers, conflicts);
  }

  method ScanApp(apps: seq<App>, a: nat, h: string, norm: string -> string,
                 routes0: seq<HostRoute>, workers0: map<string, nat>, ghost refs: seq<Ref>)
    returns (routes: seq<HostRoute>, workers: map<string, nat>)
    requires a < |apps| && AllInRange(apps, refs) && routes0 == RoutesOf(apps, refs) && workers0 == WorkersOf(apps, refs)
    ensures AllInRange(apps, Through(apps, refs, a, |apps[a].routes|, h, norm))
    ensures routes == RoutesOf(apps, Through(apps, refs, a, |apps[a].routes|, h, norm))
    ensures workers == WorkersOf(apps, Through(apps, refs, a, |apps[a].routes|, h, norm))
  {
    routes, workers := routes0, workers0;
    var app, i := apps[a], 0;
    ThroughNone(apps, refs, a, h, norm);
    hide RoutesOf, WorkersOf, AppRefs, AllInRange, KeyOf, FindLast, Through, AddPtr, InRange, RouteAt, PtrAt;
    while i < |app.routes|
      invariant 0 <= i <= |app.routes| && AllInRange(apps, Through(apps, refs, a, i, h, norm))
      invariant routes == RoutesOf(apps, Through(apps, refs, a, i, h, norm))
      invariant workers == WorkersOf(apps, Through(apps, refs, a, i, h, norm))
    {
      var rt := app.routes[i];
      ThroughStep(apps, refs, a, i, h, norm);
      if norm(rt.host) == h {
        ScanStep(apps, Through(apps, refs, a, i, h, norm), a, i);
        routes := routes + [HostRoute(app.namespace, rt.path, rt.worker)];
        workers := AddWorker(workers, app, rt.worker);
      }
      i := i + 1;
    }
  }

  lemma ScanStep(apps: seq<App>, refs: seq<Ref>, a: nat, i: nat)
    requires AllInRange(apps, refs) && a < |apps| && i < |apps[a].routes|
    ensures var rt := apps[a].routes[i];
            && AllInRange(apps, refs + [Ref(a, i)])
            && RoutesOf(apps, refs + [Ref(a, i)]) == RoutesOf(apps, refs) + [HostRoute(apps[a].namespace, rt.path, rt.worker)]
            && WorkersOf(apps, refs + [Ref(a, i)])
               == AddPtr(WorkersOf(apps, refs), KeyOf(apps[a].namespace, rt.worker),
                         FindLast(apps[a].workers, |apps[a].workers|, rt.worker))
  {
    hide RoutesOf, WorkersOf, KeyOf, FindLast, AddPtr;
    ViewStep(apps, refs, Ref(a, i));
  }

  function Through(apps: seq<App>, refs: seq<Ref>, a: nat, i: nat, h: string, norm: string -> string): seq<Ref>
    requires a < |apps| && i <= |apps[a].routes|
  {
    refs + AppRefs(apps, a, i, h, norm)
  }

  lemma ThroughNone(apps: seq<App>, refs: seq<Ref>, a: nat, h: string, norm: string -> string)
    requires a < |apps|
    ensures Through(apps, refs, a, 0, h, norm) == refs
    ensures Through(apps, refs, a, |apps[a].routes|, h, norm) == refs + AppRefs(apps, a, |apps[a].routes|, h, norm)
  {
  }

  lemma ThroughStep(apps: seq<App>, refs: seq<Ref>, a: nat, i: nat, h: string, norm: string -> string)
    requires a < |apps| && i < |apps[a].routes|
    ensures var t := Through(apps, refs, a, i, h, norm);
            Through(apps, refs, a, i + 1, h, norm) == if norm(apps[a].routes[i].host) == h then t + [Ref(a, i)] else t
  {
    AppRefsStep(apps, a, i, h, norm, refs);
  }

  /** A worker not yet in the view is looked up in its app. */
  method AddWorker(workers0: map<string, nat>, app: App, name: string) returns (workers: map<string, nat>)
    ensures workers == AddPtr(workers0, KeyOf(app.namespace, name), FindLast(app.workers, |app.workers|, name))
  {
    workers := workers0;
    var key := KeyOf(app.namespace, name);
    if key !in workers {
      var ptr := LastWorker(app.workers, name);
      if ptr.Some? { workers := workers[key := ptr.value]; }
    }
  }

  lemma AppRefsStep(apps: seq<App>, a: nat, i: nat, h: string, norm: string -> string, refs: seq<Ref>)
    requires a < |apps| && i < |apps[a].routes|
    ensures refs + AppRefs(apps, a, i + 1, h, norm)
            == if norm(apps[a].routes[i].host) == h then (refs + AppRefs(apps, a, i, h, norm)) + [Ref(a, i)]
               else refs + AppRefs(apps, a, i, h, norm)
  {
  }

  // ------------------------------------------------------------------ the index

  /** The references to a host in the first a apps and the first n routes of the next. */
  function RefsUpTo(apps: seq<App>, a: nat, n: nat, h: string, norm: string -> string): seq<Ref>
    requires a <= |apps| && (a == |apps| ==> n == 0) && (a < |apps| ==> n <= |apps[a].routes|)
  {
    if a == |apps| then Refs(apps, a, h, norm) else Refs(apps, a, h, norm) + AppRefs(apps, a, n, h, norm)
  }

  function RefsIn(idx: map<string, seq<Ref>>, h: string): seq<Ref> { if h in idx then idx[h] else [] }

  /** Each host's references, in projection order. */
  ghost predicate IndexOf(idx: map<string, seq<Ref>>, apps: seq<App>, a: nat, n: nat, norm: string -> string)
    requires a <= |apps| && (a == |apps| ==> n == 0) && (a < |apps| ==> n <= |apps[a].routes|)
  {
    forall h :: RefsIn(idx, h) == RefsUpTo(apps, a, n, h, norm)
  }

  function AddWorkers(index: map<string, nat>, app: App, n: nat): map<string, nat>
    requires n <= |app.workers|
  {
    if n == 0 then index
    else AddWorkers(index, app, n - 1)[KeyOf(app.namespace, app.workers[n - 1].name) := app.workers[n - 1].ptr]
  }

  function WorkerIndex(apps: seq<App>, m: nat): map<string, nat>
    requires m <= |apps|
  {
    if m == 0 then map[] else AddWorkers(WorkerIndex(apps, m - 1), apps[m - 1], |apps[m - 1].workers|)
  }

  /** buildHostIndex. */
  method Build(apps: seq<App>, norm: string -> string) returns (idx: map<string, seq<Ref>>, index: map<string, nat>)
    ensures IndexOf(idx, apps, |apps|, 0, norm) && index == WorkerIndex(apps, |apps|)
  {
    idx, index := map[], map[];
    var a := 0;
    NothingIndexed(apps, norm);
    hide IndexOf;
    while a < |apps|
      invariant 0 <= a <= |apps| && IndexOf(idx, apps, a, 0, norm) && index == WorkerIndex(apps, a)
    {
      index := BuildWorkers(index, apps[a]);
      idx := BuildRoutes(apps, a, norm, idx);
      a := a + 1;
    }
  }

  lemma NothingIndexed(apps: seq<App>, norm: string -> string)
    ensures IndexOf(map[], apps, 0, 0, norm)
  {
  }

  method BuildWorkers(before: map<string, nat>, app: App) returns (index: map<string, nat>)
    ensures index == AddWorkers(before, app, |app.workers|)
  {
    index := before;
    var i := 0;
    while i < |app.workers|
      invariant 0 <= i <= |app.workers| && index == AddWorkers(before, app, i)
    {
      index := index[KeyOf(app.namespace, app.workers[i].name) := app.workers[i].ptr];
      i := i + 1;
    }
  }

  method BuildRoutes(apps: seq<App>, a: nat, norm: string -> string, idx0: map<string, seq<Ref>>) returns (idx: map<string, seq<Ref>>)
    requires a < |apps| && IndexOf(idx0, apps, a, 0, norm)
    ensures IndexOf(idx, apps, a + 1, 0, norm)
  {
    idx := idx0;
    var i := 0;
    hide IndexOf;
    while i < |apps[a].routes|
      invariant 0 <= i <= |apps[a].routes| && IndexOf(idx, apps, a, i, norm)
    {
      var h := norm(apps[a].routes[i].host);
      IndexStep(idx, apps, a, i, norm);
      idx := idx[h := RefsIn(idx, h) + [Ref(a, i)]];
      i := i + 1;
    }
    NextApp(idx, apps, a, norm);
  }

  lemma IndexStep(idx: map<string, seq<Ref>>, apps: seq<App>, a: nat, i: nat, norm: string -> string)
    requires a < |apps| && i < |apps[a].routes| && IndexOf(idx, apps, a, i, norm)
    ensures var h := norm(apps[a].routes[i].host);
            IndexOf(idx[h := RefsIn(idx, h) + [Ref(a, i)]], apps, a, i + 1, norm)
  {
    var h := norm(apps[a].routes[i].host);
    var idx' := idx[h := RefsIn(idx, h) + [Ref(a, i)]];
    forall g ensures RefsIn(idx', g) == RefsUpTo(apps, a, i + 1, g, norm) {
      assert RefsIn(idx, g) == RefsUpTo(apps, a, i, g, norm);
      AppRefsStep(apps, a, i, g, norm, Refs(apps, a, g, norm));
      hide Refs, AppRefs;
    }
  }

  lemma NextApp(idx: map<string, seq<Ref>>, apps: seq<App>, a: nat, norm: string -> string)
    requires a < |apps| && IndexOf(idx, apps, a, |apps[a].routes|, norm)
    ensures IndexOf(idx, apps, a + 1, 0, norm)
  {
    forall h ensures RefsIn(idx, h) == RefsUpTo(apps, a + 1, 0, h, norm) {
      assert RefsIn(idx, h) == RefsUpTo(apps, a, |apps[a].routes|, h, norm);
    }
  }

  // ------------------------------------------------------------------ what a key identifies

  /** Namespaces are distinct and hold no slash. */
  predicate Distinct(apps: seq<App>)
  {
    && (forall i | 0 <= i < |apps| :: '/' !in apps[i].namespace)
    && (forall i, j | 0 <= i < j < |apps| :: apps[i].namespace != apps[j].namespace)
  }

  lemma KeyIsUnique(n: string, w: string, n': string, w': string)
    requires '/' !in n && '/' !in n' && KeyOf(n, w) == KeyOf(n', w')
    ensures n == n' && w == w'
  {
    var k := KeyOf(n, w);
    assert k[|n|] == '/' && k[|n'|] == '/';
    assert forall i | 0 <= i < |n| :: k[i] == n[i] && n[i] in n;
    assert forall i | 0 <= i < |n'| :: k[i] == n'[i] && n'[i] in n';
    assert |n| == |n'|;
    assert k[..|n|] == n && k[..|n'|] == n' && k[|n| + 1..] == w && k[|n'| + 1..] == w';
  }

  function Get(index: map<string, nat>, key: string): Option<nat> { if key in index then Some(index[key]) else None }

  lemma {:induction false} AddedHere(index: map<string, nat>, app: App, n: nat, name: string)
    requires n <= |app.workers| && '/' !in app.namespace
    ensures var got := Get(AddWorkers(index, app, n), KeyOf(app.namespace, name));
            got == if FindLast(app.workers, n, name).Some? then FindLast(app.workers, n, name) else Get(index, KeyOf(app.namespace, name))
  {
    if n > 0 {
      AddedHere(index, app, n - 1, name);
      var w := app.workers[n - 1].name;
      if KeyOf(app.namespace, w) == KeyOf(app.namespace, name) { KeyIsUnique(app.namespace, w, app.namespace, name); }
    }
  }

  lemma {:induction false} AddedElsewhere(index: map<string, nat>, app: App, n: nat, namespace: string, name: string)
    requires n <= |app.workers| && '/' !in app.namespace && '/' !in namespace && namespace != app.namespace
    ensures Get(AddWorkers(index, app, n), KeyOf(namespace, name)) == Get(index, KeyOf(namespace, name))
  {
    if n > 0 {
      AddedElsewhere(index, app, n - 1, namespace, name);
      var w := app.workers[n - 1].name;
      if KeyOf(app.namespace, w) == KeyOf(namespace, name) { KeyIsUnique(app.namespace, w, namespace, name); }
    }
  }

  /** The worker index finds what scanning the app finds. */
  lemma {:induction false} IndexFinds(apps: seq<App>, m: nat, a: nat, name: string)
    requires Distinct(apps) && m <= |apps| && a < |apps|
    ensures Get(WorkerIndex(apps, m), KeyOf(apps[a].namespace, name))
            == if a < m then FindLast(apps[a].workers, |apps[a].workers|, name) else None
  {
    if m > 0 {
      IndexFinds(apps, m - 1, a, name);
      var before, app := WorkerIndex(apps, m - 1), apps[m - 1];
      if a == m - 1 {
        AddedHere(before, app, |app.workers|, name);
      } else {
        AddedElsewhere(before, app, |app.workers|, apps[a].namespace, name);
      }
    }
  }

  /** What the index says of the workers the references name. */
  function IndexedOf(apps: seq<App>, index: map<string, nat>, refs: seq<Ref>): map<string, nat>
    requires AllInRange(apps, refs)
  {
    if refs == [] then map[]
    else
      var last := refs[|refs| - 1];
      assert InRange(apps, last);
      var key := KeyOf(apps[last.app].namespace, apps[last.app].routes[last.route].worker);
      AddPtr(IndexedOf(apps, index, refs[..|refs| - 1]), key, Get(index, key))
  }

  lemma IndexedStep(apps: seq<App>, index: map<string, nat>, refs: seq<Ref>, r: Ref)
    requires AllInRange(apps, refs) && InRange(apps, r)
    ensures AllInRange(apps, refs + [r])
    ensures var key := KeyOf(apps[r.app].namespace, apps[r.app].routes[r.route].worker);
            IndexedOf(apps, index, refs + [r]) == AddPtr(IndexedOf(apps, index, refs), key, Get(index, key))
  {
    assert (refs + [r])[..|refs|] == refs;
  }

  /** With distinct namespaces that is what the scan finds. */
  lemma {:induction false} IndexedIsScanned(apps: seq<App>, refs: seq<Ref>)
    requires Distinct(apps) && AllInRange(apps, refs)
    ensures IndexedOf(apps, WorkerIndex(apps, |apps|), refs) == WorkersOf(apps, refs)
  {
    if refs != [] {
      var last := refs[|refs| - 1];
      assert InRange(apps, last);
      IndexedIsScanned(apps, refs[..|refs| - 1]);
      IndexFinds(apps, |apps|, last.app, apps[last.app].routes[last.route].worker);
    }
  }

  /** HostView with an index: the same view as the scan, for every projection of distinct namespaces. */
  method Lookup(apps: seq<App>, idx: map<string, seq<Ref>>, index: map<string, nat>, h: string, norm: string -> string) returns (v: View)
    requires IndexOf(idx, apps, |apps|, 0, norm) && index == WorkerIndex(apps, |apps|)
    ensures AllInRange(apps, Refs(apps, |apps|, h, norm))
    ensures v.workers == IndexedOf(apps, index, Refs(apps, |apps|, h, norm))
    ensures v.routes == RoutesOf(apps, Refs(apps, |apps|, h, norm))
    ensures v.conflicts <==> Conflicting(v.routes)
    ensures Distinct(apps) ==> IsView(v, apps, Refs(apps, |apps|, h, norm))
  {
    var refs := RefsIn(idx, h);
    assert refs == RefsUpTo(apps, |apps|, 0, h, norm);
    RefsInRange(apps, |apps|, h, norm);
    var routes, workers := Follow(apps, index, refs);
    var conflicts := CountPaths(routes);
    v := View(routes, workers, conflicts);
    if Distinct(apps) { IndexedIsScanned(apps, refs); }
  }

  method Follow(apps: seq<App>, index: map<string, nat>, refs: seq<Ref>) returns (routes: seq<HostRoute>, workers: map<string, nat>)
    requires AllInRange(apps, refs)
    ensures routes == RoutesOf(apps, refs) && workers == IndexedOf(apps, index, refs)
  {
    routes, workers := [], map[];
    var i := 0;
    assert refs[..0] == [];
    hide RoutesOf, WorkersOf, KeyOf;
    NoRefs(apps);
    while i < |refs|
      invariant 0 <= i <= |refs| && AllInRange(apps, refs[..i])
      invariant routes == RoutesOf(apps, refs[..i]) && workers == IndexedOf(apps, index, refs[..i])
    {
      var r := refs[i];
      assert InRange(apps, r);
      var app := apps[r.app];
      var rt := app.routes[r.route];
      ViewStep(apps, refs[..i], r);
      IndexedStep(apps, index, refs[..i], r);
      assert refs[..i + 1] == refs[..i] + [r];
      routes := routes + [HostRoute(app.namespace, rt.path, rt.worker)];
      var key := KeyOf(app.namespace, rt.worker);
      if key !in workers && key in index { workers := workers[key := index[key]]; }
      i := i + 1;
    }
    assert refs[..i] == refs;
  }

  lemma NoRefs(apps: seq<App>)
    ensures RoutesOf(apps, []) == [] && WorkersOf(apps, []) == map[]
  {
  }

  function KeyAt(apps: seq<App>, r: Ref): string
    requires InRange(apps, r)
  {
    KeyOf(apps[r.app].namespace, apps[r.app].routes[r.route].worker)
  }

  /** The pointer in the app of the first reference that names the worker and finds it. */
  function FirstPtr(apps: seq<App>, refs: seq<Ref>, key: string): Option<nat>
    requires AllInRange(apps, refs)
  {
    if refs == [] then None
    else
      var last := refs[|refs| - 1];
      assert InRange(apps, last);
      var before := FirstPtr(apps, refs[..|refs| - 1], key);
      if before.None? && KeyAt(apps, last) == key then PtrAt(apps, last) else before
  }

  lemma {:induction false} ScannedGet(apps: seq<App>, refs: seq<Ref>, key: string)
    requires AllInRange(apps, refs)
    ensures Get(WorkersOf(apps, refs), key) == FirstPtr(apps, refs, key)
  {
    if refs != [] { ScannedGet(apps, refs[..|refs| - 1], key); }
  }

  lemma {:induction false} IndexedGet(apps: seq<App>, index: map<string, nat>, refs: seq<Ref>, key: string)
    requires AllInRange(apps, refs)
    ensures Get(IndexedOf(apps, index, refs), key)
            == if exists i | 0 <= i < |refs| :: KeyAt(apps, refs[i]) == key then Get(index, key) else None
  {
    if refs != [] {
      var front := refs[..|refs| - 1];
      assert AllInRange(apps, front) && InRange(apps, refs[|refs| - 1]);
      IndexedGet(apps, index, front, key);
      assert forall i | 0 <= i < |front| :: front[i] == refs[i];
    }
  }

  /** For every worker the host names, the first app to find it has the pointer the index has. */
  ghost predicate SamePointers(apps: seq<App>, refs: seq<Ref>)
    requires AllInRange(apps, refs)
  {
    forall i | 0 <= i < |refs| ::
      FirstPtr(apps, refs, KeyAt(apps, refs[i])) == Get(WorkerIndex(apps, |apps|), KeyAt(apps, refs[i]))
  }

  lemma NoPtr(apps: seq<App>, refs: seq<Ref>, key: string)
    requires AllInRange(apps, refs) && !exists i | 0 <= i < |refs| :: KeyAt(apps, refs[i]) == key
    ensures FirstPtr(apps, refs, key).None?
  {
    if refs != [] {
      var front := refs[..|refs| - 1];
      assert forall i | 0 <= i < |front| :: front[i] == refs[i];
      assert KeyAt(apps, refs[|refs| - 1]) != key;
      NoPtr(apps, front, key);
    }
  }

  lemma WorkersAgreeExactly(apps: seq<App>, refs: seq<Ref>)
    requires AllInRange(apps, refs)
    ensures WorkersOf(apps, refs) == IndexedOf(apps, WorkerIndex(apps, |apps|), refs) <==> SamePointers(apps, refs)
  {
    var index := WorkerIndex(apps, |apps|);
    var scanned, found := WorkersOf(apps, refs), IndexedOf(apps, index, refs);
    hide WorkersOf, IndexedOf, WorkerIndex, FirstPtr, KeyAt;
    if scanned == found {
      forall i | 0 <= i < |refs| ensures FirstPtr(apps, refs, KeyAt(apps, refs[i])) == Get(index, KeyAt(apps, refs[i])) {
        ScannedGet(apps, refs, KeyAt(apps, refs[i]));
        IndexedGet(apps, index, refs, KeyAt(apps, refs[i]));
      }
    }
    if SamePointers(apps, refs) {
      forall key ensures Get(scanned, key) == Get(found, key) {
        ScannedGet(apps, refs, key);
        IndexedGet(apps, index, refs, key);
        if !exists i | 0 <= i < |refs| :: KeyAt(apps, refs[i]) == key { NoPtr(apps, refs, key); }
      }
      SameGets(scanned, found);
    }
  }

  lemma SameGets(a: map<string, nat>, b: map<string, nat>)
    requires forall key :: Get(a, key) == Get(b, key)
    ensures a == b
  {
    assert forall key | key in a :: Get(a, key) == Get(b, key);
    assert forall key | key in b :: Get(a, key) == Get(b, key);
  }

  /**
   The two paths of HostView agree if and only if the pointers do, and with distinct namespaces,
   which is all the store projects, they always do.
   */
  method BothPaths(apps: seq<App>, h: string, norm: string -> string) returns (scanned: View, found: View)
    ensures AllInRange(apps, Refs(apps, |apps|, h, norm))
    ensures scanned == found <==> SamePointers(apps, Refs(apps, |apps|, h, norm))
    ensures Distinct(apps) ==> scanned == found
  {
    var idx, index := Build(apps, norm);
    scanned := Scan(apps, h, norm);
    found := Lookup(apps, idx, index, h, norm);
    WorkersAgreeExactly(apps, Refs(apps, |apps|, h, norm));
  }

  /** Two apps of one namespace, if there were such: the scan finds the worker of the route's own app, the index the last one. */
  method SharedNamespaceDiffers(norm: string -> string) returns (apps: seq<App>, scanned: View, found: View)
    ensures scanned.routes == found.routes && scanned.workers != found.workers
    ensures |apps| == 2 && apps[0].namespace == apps[1].namespace
  {
    var a, b := App("n", [Route("h", "/", "w")], [Worker("w", 1)]), App("n", [], [Worker("w", 2)]);
    apps := [a, b];
    var idx, index := Build(apps, norm);
    scanned := Scan(apps, norm("h"), norm);
    found := Lookup(apps, idx, index, norm("h"), norm);
    OneRef(apps, norm);
    assert FindLast(a.workers, 1, "w") == Some(1);
    AddedHere(WorkerIndex(apps, 1), b, 1, "w");
    ViewStep(apps, [], Ref(0, 0));
    IndexedStep(apps, index, [], Ref(0, 0));
    assert [] + [Ref(0, 0)] == [Ref(0, 0)];
    assert scanned.workers[KeyOf("n", "w")] == 1 && found.workers[KeyOf("n", "w")] == 2;
  }

  lemma OneRef(apps: seq<App>, norm: string -> string)
    requires |apps| == 2 && apps[0].routes == [Route("h", "/", "w")] && apps[1].routes == []
    ensures Refs(apps, 2, norm("h"), norm) == [Ref(0, 0)]
  {
    var h := norm("h");
    assert AppRefs(apps, 0, 1, h, norm) == [Ref(0, 0)];
    assert AppRefs(apps, 1, 0, h, norm) == [];
    assert Refs(apps, 1, h, norm) == [Ref(0, 0)];
  }
}
