/** Bundle statistics: which chunks load at boot, and which ones a measured route adds on top of them. The route
    search skips the boot chunks instead of visiting them again. */
module BundleClosure {
  import opened Basics

  type File = string

  datatype Chunk = Chunk(fileName: File, isEntry: bool, facade: Option<string>, imports: seq<File>)

  /** new Map(chunks.map(...)): of two chunks with one name the later is kept. */
  function ByFileName(chunks: seq<Chunk>): (m: map<File, Chunk>)
    ensures forall f :: f in m <==> exists i :: 0 <= i < |chunks| && chunks[i].fileName == f
    ensures forall f | f in m :: m[f] in chunks && m[f].fileName == f
  {
    if chunks == [] then map[]
    else
      var last := |chunks| - 1;
      assert forall i | 0 <= i < last :: chunks[i] == chunks[..last][i];
      ByFileName(chunks[..last])[chunks[last].fileName := chunks[last]]
  }

  function ImportsOf(byName: map<File, Chunk>, f: File): seq<File> {
    if f in byName then byName[f].imports else []
  }

  // ---- reachability ----

  /** From a, within n static imports, b is reached without touching a file in skip. */
  ghost predicate ReachesWithin(m: map<File, Chunk>, skip: set<File>, a: File, b: File, n: nat)
    decreases n
  {
    a !in skip && (a == b || (n > 0 && exists w :: w in ImportsOf(m, a) && ReachesWithin(m, skip, w, b, n - 1)))
  }

  ghost predicate Reaches(m: map<File, Chunk>, skip: set<File>, a: File, b: File) {
    exists n: nat :: ReachesWithin(m, skip, a, b, n)
  }

  lemma ReachesStep(m: map<File, Chunk>, skip: set<File>, a: File, w: File, b: File)
    requires a !in skip && w in ImportsOf(m, a) && Reaches(m, skip, w, b)
    ensures Reaches(m, skip, a, b)
  {
    var n: nat :| ReachesWithin(m, skip, w, b, n);
    assert ReachesWithin(m, skip, a, b, n + 1);
  }

  ghost predicate ImportClosed(m: map<File, Chunk>, skip: set<File>, S: set<File>) {
    forall v, w | v in S && w in ImportsOf(m, v) :: w in S || w in skip
  }

  lemma {:induction false} ClosedKeeps(m: map<File, Chunk>, skip: set<File>, S: set<File>, a: File, b: File, n: nat)
    requires ImportClosed(m, skip, S) && a in S && ReachesWithin(m, skip, a, b, n)
    ensures b in S
    decreases n
  {
    if a != b {
      var w :| w in ImportsOf(m, a) && ReachesWithin(m, skip, w, b, n - 1);
      ClosedKeeps(m, skip, S, w, b, n - 1);
    }
  }

  // ---- the search ----

  class Search {
    const byName: map<File, Chunk>
    const skip: set<File>
    var closure: set<File>

    constructor (byName: map<File, Chunk>, skip: set<File>)
      ensures this.byName == byName && this.skip == skip && closure == {}
    {
      this.byName, this.skip, closure := byName, skip, {};
    }

    /** The recursive walk: everything it adds is reached from f, and what is added is closed again when it returns. */
    method Walk(f: File)
      modifies this`closure
      ensures old(closure) <= closure
      ensures f in closure || f in skip
      ensures forall v | v in closure - old(closure) :: Reaches(byName, skip, f, v)
      ensures ImportClosed(byName, skip + closure, closure - old(closure))
      decreases byName.Keys - closure
    {
      if f in closure || f in skip {
        return;
      }
      ghost var before := closure;
      closure := closure + {f};
      assert ReachesWithin(byName, skip, f, f, 0);
      if f !in byName {
        return;
      }
      var imports := byName[f].imports;
      for i := 0 to |imports|
        invariant before + {f} <= closure
        invariant forall w | w in imports[..i] :: w in closure || w in skip
        invariant forall v | v in closure - before :: Reaches(byName, skip, f, v)
        invariant ImportClosed(byName, skip + closure, closure - before - {f})
      {
        ghost var mid := closure;
        assert f in byName.Keys - before && f !in byName.Keys - closure;
        Walk(imports[i]);
        forall v | v in closure - mid
          ensures Reaches(byName, skip, f, v)
        {
          ReachesStep(byName, skip, f, imports[i], v);
        }
        forall v, w | v in closure - before - {f} && w in ImportsOf(byName, v)
          ensures w in skip + closure
        {
          if v in mid {
            assert v in mid - before - {f};
            assert w in skip + mid;
          } else {
            assert v in closure - mid;
            assert w in skip + closure;
          }
        }
      }
    }
  }

  method StaticClosure(byName: map<File, Chunk>, start: File, skip: set<File>) returns (closure: set<File>)
    ensures forall f :: f in closure <==> Reaches(byName, skip, start, f)
  {
    var search := new Search(byName, skip);
    search.Walk(start);
    closure := search.closure;
    assert closure - {} == closure;
    forall f | Reaches(byName, skip, start, f)
      ensures f in closure
    {
      var n: nat :| ReachesWithin(byName, skip, start, f, n);
      ClosedKeeps(byName, skip, closure, start, f, n);
    }
  }

  // ---- skipping loses nothing ----

  /** Files reached from the entry. */
  ghost predicate IsBoot(m: map<File, Chunk>, entry: File, boot: set<File>) {
    forall f :: f in boot <==> Reaches(m, {}, entry, f)
  }

  lemma ReachesOn(m: map<File, Chunk>, a: File, v: File, w: File, n: nat)
    requires ReachesWithin(m, {}, a, v, n) && w in ImportsOf(m, v)
    ensures Reaches(m, {}, a, w)
    decreases n
  {
    if a == v {
      assert ReachesWithin(m, {}, w, w, 0);
      assert ReachesWithin(m, {}, a, w, 1);
    } else {
      var u :| u in ImportsOf(m, a) && ReachesWithin(m, {}, u, v, n - 1);
      ReachesOn(m, u, v, w, n - 1);
      ReachesStep(m, {}, a, u, w);
    }
  }

  lemma BootIsImportClosed(m: map<File, Chunk>, entry: File, boot: set<File>)
    requires IsBoot(m, entry, boot)
    ensures ImportClosed(m, {}, boot)
  {
    forall v, w | v in boot && w in ImportsOf(m, v)
      ensures w in boot
    {
      var n: nat :| ReachesWithin(m, {}, entry, v, n);
      ReachesOn(m, entry, v, w, n);
    }
  }

  lemma {:induction false} PathOutsideBoot(m: map<File, Chunk>, boot: set<File>, a: File, b: File, n: nat)
    requires ImportClosed(m, {}, boot) && b !in boot && ReachesWithin(m, {}, a, b, n)
    ensures ReachesWithin(m, boot, a, b, n)
    decreases n
  {
    if a in boot {
      ClosedKeeps(m, {}, boot, a, b, n);
    }
    if a != b {
      var w :| w in ImportsOf(m, a) && ReachesWithin(m, {}, w, b, n - 1);
      PathOutsideBoot(m, boot, w, b, n - 1);
    }
  }

  lemma {:induction false} PathWithoutSkip(m: map<File, Chunk>, skip: set<File>, a: File, b: File, n: nat)
    requires ReachesWithin(m, skip, a, b, n)
    ensures ReachesWithin(m, {}, a, b, n) && b !in skip
    decreases n
  {
    if a != b {
      var w :| w in ImportsOf(m, a) && ReachesWithin(m, skip, w, b, n - 1);
      PathWithoutSkip(m, skip, w, b, n - 1);
    }
  }

  /** The skipping search finds exactly what the route reaches beyond boot. */
  lemma SkippingLosesNothing(m: map<File, Chunk>, entry: File, boot: set<File>, route: File, b: File)
    requires IsBoot(m, entry, boot)
    ensures Reaches(m, boot, route, b) <==> Reaches(m, {}, route, b) && b !in boot
  {
    BootIsImportClosed(m, entry, boot);
    if n: nat :| ReachesWithin(m, boot, route, b, n) {
      PathWithoutSkip(m, boot, route, b, n);
    }
    if n: nat :| ReachesWithin(m, {}, route, b, n) && b !in boot {
      PathOutsideBoot(m, boot, route, b, n);
    }
  }

  /** It is only because boot is import-closed: skipping an arbitrary set can hide files behind it. */
  lemma SkippingAnOpenSetHides()
    ensures exists m, skip, route, b :: b !in skip && Reaches(m, {}, route, b) && !Reaches(m, skip, route, b)
  {
    var m := map["a" := Chunk("a", false, None, ["b"]), "b" := Chunk("b", false, None, ["c"])];
    assert ReachesWithin(m, {}, "c", "c", 0);
    assert "c" in ImportsOf(m, "b") && "b" in ImportsOf(m, "a");
    ReachesStep(m, {}, "b", "c", "c");
    ReachesStep(m, {}, "a", "b", "c");
    forall n: nat
      ensures !ReachesWithin(m, {"b"}, "a", "c", n)
    {
      assert n > 0 ==> forall w | w in ImportsOf(m, "a") :: w == "b" && !ReachesWithin(m, {"b"}, w, "c", n - 1);
    }
    assert "c" !in {"b"} && Reaches(m, {}, "a", "c") && !Reaches(m, {"b"}, "a", "c");
  }

  // ---- the statistics ----

  datatype Stats = Stats(entry: File, bootChunks: set<File>, routeClosures: map<string, RouteClosure>)

  datatype RouteClosure = RouteClosure(entry: File, chunks: set<File>)

  predicate EndsWith(s: string, suffix: string) {
    |suffix| <= |s| && s[|s| - |suffix|..] == suffix
  }

  predicate IsRoute(c: Chunk, suffix: string) {
    c.facade.Some? && EndsWith(c.facade.value, suffix)
  }

  /** A chunk is a route's when its facade module is some front followed by the route's suffix. */
  lemma IsRouteExactly(c: Chunk, suffix: string)
    ensures IsRoute(c, suffix) <==> exists front :: c.facade == Some(front + suffix)
  {
    if IsRoute(c, suffix) {
      var s := c.facade.value;
      assert s == s[..|s| - |suffix|] + suffix;
    }
  }

  method FindEntry(chunks: seq<Chunk>) returns (i: nat)
    ensures i <= |chunks|
    ensures forall k | 0 <= k < i :: !chunks[k].isEntry
    ensures i < |chunks| ==> chunks[i].isEntry
  {
    i := 0;
    while i < |chunks| && !chunks[i].isEntry
      invariant i <= |chunks|
      invariant forall k | 0 <= k < i :: !chunks[k].isEntry
    {
      i := i + 1;
    }
  }

  method FindRoute(chunks: seq<Chunk>, suffix: string) returns (i: nat)
    ensures i <= |chunks|
    ensures forall k | 0 <= k < i :: !IsRoute(chunks[k], suffix)
    ensures i < |chunks| ==> IsRoute(chunks[i], suffix)
  {
    i := 0;
    while i < |chunks| && !IsRoute(chunks[i], suffix)
      invariant i <= |chunks|
      invariant forall k | 0 <= k < i :: !IsRoute(chunks[k], suffix)
    {
      i := i + 1;
    }
  }

  /** What a recorded route must be: disjoint from boot, and with boot all known chunks the entry or route reaches. */
  ghost predicate RouteAddsExactly(m: map<File, Chunk>, stats: Stats, r: RouteClosure) {
    && r.chunks !! stats.bootChunks
    && forall f :: f in stats.bootChunks + r.chunks <==>
         f in m && (Reaches(m, {}, stats.entry, f) || Reaches(m, {}, r.entry, f))
  }

  /** A route is recorded, starting from the first chunk its suffix names, or warned about when no chunk matches. */
  ghost predicate RouteIsFirst(chunks: seq<Chunk>, suffix: string, entry: File) {
    exists i :: 0 <= i < |chunks| && IsRoute(chunks[i], suffix) && chunks[i].fileName == entry &&
      forall k | 0 <= k < i :: !IsRoute(chunks[k], suffix)
  }

  ghost predicate RouteDone(chunks: seq<Chunk>, stats: Stats, name: string, suffix: string, warned: seq<string>) {
    if exists c :: c in chunks && IsRoute(c, suffix) then
      && name in stats.routeClosures && name !in warned
      && RouteIsFirst(chunks, suffix, stats.routeClosures[name].entry)
      && RouteAddsExactly(ByFileName(chunks), stats, stats.routeClosures[name])
    else
      name !in stats.routeClosures && name in warned
  }

  ghost predicate Measured(routes: seq<(string, string)>, upTo: nat, name: string)
  {
    exists i :: 0 <= i < |routes| && i < upTo && routes[i].0 == name
  }

  predicate DistinctNames(routes: seq<(string, string)>) {
    forall i, j | 0 <= i < j < |routes| :: routes[i].0 != routes[j].0
  }

  method RouteChunks(m: map<File, Chunk>, ghost stats: Stats, boot: set<File>, route: File) returns (r: RouteClosure)
    requires IsBoot(m, stats.entry, boot) && stats.bootChunks == boot * m.Keys
    ensures r.entry == route && RouteAddsExactly(m, stats, r)
  {
    var closure := StaticClosure(m, route, boot);
    r := RouteClosure(route, closure * m.Keys);
    forall f
      ensures Reaches(m, boot, route, f) <==> Reaches(m, {}, route, f) && f !in boot
    {
      SkippingLosesNothing(m, stats.entry, boot, route, f);
    }
  }

  method ComputeBundleStats(chunks: seq<Chunk>, routes: seq<(string, string)>)
    returns (result: Option<Stats>, warned: seq<string>)
    requires DistinctNames(routes)
    ensures result.None? <==> forall c | c in chunks :: !c.isEntry
    ensures result.Some? ==>
              var m := ByFileName(chunks);
              && (exists i :: 0 <= i < |chunks| && chunks[i].isEntry && chunks[i].fileName == result.value.entry &&
                    forall k | 0 <= k < i :: !chunks[k].isEntry)
              && (forall f :: f in result.value.bootChunks <==> f in m && Reaches(m, {}, result.value.entry, f))
              && forall i | 0 <= i < |routes| :: RouteDone(chunks, result.value, routes[i].0, routes[i].1, warned)
    // and nothing else is recorded or warned about
    ensures result.Some? ==>
              (forall name | name in result.value.routeClosures :: Measured(routes, |routes|, name)) &&
              (forall name | name in warned :: Measured(routes, |routes|, name))
    ensures result.None? ==> warned == []
  {
    warned := [];
    var m := ByFileName(chunks);
    var e := FindEntry(chunks);
    if e == |chunks| {
      return None, warned;
    }
    var entry := chunks[e].fileName;
    var boot := StaticClosure(m, entry, {});
    var stats := Stats(entry, boot * m.Keys, map[]);
    for i := 0 to |routes|
      invariant stats.entry == entry && stats.bootChunks == boot * m.Keys
      invariant forall k | i <= k < |routes| :: routes[k].0 !in stats.routeClosures && routes[k].0 !in warned
      invariant forall k | 0 <= k < i :: RouteDone(chunks, stats, routes[k].0, routes[k].1, warned)
      invariant forall n | n in stats.routeClosures :: Measured(routes, i, n)
      invariant forall n | n in warned :: Measured(routes, i, n)
    {
      assert routes[i].0 == routes[..i + 1][i].0;
      ghost var stats0, warned0 := stats, warned;
      var (name, suffix) := routes[i];
      var c := FindRoute(chunks, suffix);
      if c == |chunks| {
        warned := warned + [name];
      } else {
        var r := RouteChunks(m, stats, boot, chunks[c].fileName);
        stats := stats.(routeClosures := stats.routeClosures[name := r]);
        assert chunks[c] in chunks && IsRoute(chunks[c], suffix);
        assert RouteAddsExactly(m, stats, r);
      }
      forall k | 0 <= k < i
        ensures RouteDone(chunks, stats, routes[k].0, routes[k].1, warned)
      {
        assert RouteDone(chunks, stats0, routes[k].0, routes[k].1, warned0);
        assert routes[k].0 != name;
        KeepsRoute(chunks, stats0, stats, routes[k].0, routes[k].1, warned0, warned);
      }
    }
    result := Some(stats);
    assert chunks[e] in chunks;
  }

  lemma KeepsRoute(chunks: seq<Chunk>, stats0: Stats, stats: Stats, name: string, suffix: string,
                   warned0: seq<string>, warned: seq<string>)
    requires RouteDone(chunks, stats0, name, suffix, warned0)
    requires stats.entry == stats0.entry && stats.bootChunks == stats0.bootChunks
    requires name in stats0.routeClosures <==> name in stats.routeClosures
    requires name in stats0.routeClosures ==> stats.routeClosures[name] == stats0.routeClosures[name]
    requires name in warned0 <==> name in warned
    ensures RouteDone(chunks, stats, name, suffix, warned)
  {
    if name in stats0.routeClosures {
      assert RouteAddsExactly(ByFileName(chunks), stats0, stats0.routeClosures[name]);
    }
  }
}
