/** Which test files need an isolated worker: a memoised depth-first search of the import graph, and the projects
    generated from its answers. */
module Isolation {
  import opened Basics

  type File = string

  /** imports: the local test-support modules each file imports; matching: files using an API that needs isolation. */
  datatype Graph = Graph(imports: map<File, seq<File>>, matching: set<File>) {
    function ImportsOf(f: File): seq<File> {
      if f in imports then imports[f] else []
    }
  }

  type Memo = map<File, bool>

  // ---- reachability, pruned at what is already memoised ----

  /** Within n imports, f leads to a matching or memoised-true file without passing through one memoised false. */
  ghost predicate LeadsWithin(g: Graph, memo: Memo, f: File, n: nat)
    decreases n
  {
    if f in memo then memo[f]
    else f in g.matching || (n > 0 && exists w :: w in g.ImportsOf(f) && LeadsWithin(g, memo, w, n - 1))
  }

  ghost predicate Leads(g: Graph, memo: Memo, f: File) {
    exists n: nat :: LeadsWithin(g, memo, f, n)
  }

  /** Plain reachability of a matching file. */
  ghost predicate NeedsIsolation(g: Graph, f: File) {
    Leads(g, map[], f)
  }

  lemma LeadsStep(g: Graph, memo: Memo, f: File, w: File)
    requires f !in memo && w in g.ImportsOf(f) && Leads(g, memo, w)
    ensures Leads(g, memo, f)
  {
    var n: nat :| LeadsWithin(g, memo, w, n);
    assert LeadsWithin(g, memo, f, n + 1);
  }

  /** A set of unmemoised, non-matching files whose imports stay inside it or are memoised false leads nowhere. */
  lemma {:induction false} ClosedLeadsNowhere(g: Graph, memo: Memo, S: set<File>, f: File, n: nat)
    requires forall v | v in S :: v !in memo && v !in g.matching
    requires forall v, w | v in S && w in g.ImportsOf(v) :: w in S || (w in memo && !memo[w])
    requires f in S || (f in memo && !memo[f])
    ensures !LeadsWithin(g, memo, f, n)
    decreases n
  {
    if f in S && n > 0 {
      forall w | w in g.ImportsOf(f)
        ensures !LeadsWithin(g, memo, w, n - 1)
      {
        ClosedLeadsNowhere(g, memo, S, w, n - 1);
      }
    }
  }

  lemma NoImportNeedsIt(g: Graph, f: File)
    requires f !in g.matching && forall w | w in g.ImportsOf(f) :: !NeedsIsolation(g, w)
    ensures !NeedsIsolation(g, f)
  {
    forall n: nat
      ensures !LeadsWithin(g, map[], f, n)
    {
      if n > 0 {
        forall w | w in g.ImportsOf(f)
          ensures !LeadsWithin(g, map[], w, n - 1)
        {
        }
      }
    }
  }

  /** An exact memo prunes nothing that matters. */
  lemma ExactMemoPrunesNothing(g: Graph, memo: Memo, f: File)
    requires Exact(g, memo)
    ensures Leads(g, memo, f) <==> NeedsIsolation(g, f)
  {
    if n: nat :| LeadsWithin(g, memo, f, n) { PrunedIsPlain(g, memo, f, n); }
    if n: nat :| LeadsWithin(g, map[], f, n) { PlainIsPruned(g, memo, f, n); }
  }

  lemma {:induction false} PrunedIsPlain(g: Graph, memo: Memo, f: File, n: nat)
    requires Exact(g, memo) && LeadsWithin(g, memo, f, n)
    ensures NeedsIsolation(g, f)
    decreases n
  {
    if f !in memo && f !in g.matching {
      var w :| w in g.ImportsOf(f) && LeadsWithin(g, memo, w, n - 1);
      PrunedIsPlain(g, memo, w, n - 1);
      LeadsStep(g, map[], f, w);
    } else if f in g.matching {
      assert LeadsWithin(g, map[], f, 0);
    }
  }

  lemma {:induction false} PlainIsPruned(g: Graph, memo: Memo, f: File, n: nat)
    requires Exact(g, memo) && LeadsWithin(g, map[], f, n)
    ensures Leads(g, memo, f)
    decreases n
  {
    if f in memo {
      assert NeedsIsolation(g, f);
      assert LeadsWithin(g, memo, f, 0);
    } else if f in g.matching {
      assert LeadsWithin(g, memo, f, 0);
    } else {
      var w :| w in g.ImportsOf(f) && LeadsWithin(g, map[], w, n - 1);
      PlainIsPruned(g, memo, w, n - 1);
      LeadsStep(g, memo, f, w);
    }
  }

  // ---- what holds of the memo during one outermost query ----

  ghost predicate Extends(memo0: Memo, memo: Memo) {
    forall v | v in memo0 :: v in memo && memo[v] == memo0[v]
  }

  /** While nothing has been found, every new entry is false and closed up to the files still being visited. */
  ghost predicate Fruitless(g: Graph, memo0: Memo, memo: Memo, visiting: set<File>) {
    forall v | v in memo && v !in memo0 ::
      && !memo[v] && v !in g.matching
      && forall w | w in g.ImportsOf(v) :: w in visiting || (w in memo && !memo[w])
  }

  ghost predicate TrueOnlyIf(g: Graph, memo0: Memo, memo: Memo) {
    forall v | v in memo && v !in memo0 && memo[v] :: Leads(g, memo0, v)
  }

  function RankOf(rank: map<File, nat>, f: File): nat {
    if f in rank then rank[f] else 0
  }

  /** A witness that the graph has no cycle: every import goes down in rank. */
  ghost predicate Ranked(g: Graph, rank: map<File, nat>) {
    forall f, w | w in g.ImportsOf(f) :: RankOf(rank, w) < RankOf(rank, f)
  }

  ghost predicate Exact(g: Graph, memo: Memo) {
    forall v | v in memo :: memo[v] <==> NeedsIsolation(g, v)
  }

  /** True entries are real, whatever cycles the graph has. */
  ghost predicate Sound(g: Graph, memo: Memo) {
    forall v | v in memo && memo[v] :: NeedsIsolation(g, v)
  }

  // ---- the search as a function of the memo and the files being visited ----

  function SearchFrom(g: Graph, memo: Memo, visiting: set<File>, file: File): (Memo, bool)
    decreases g.imports.Keys - visiting, 1, 0
  {
    if file in memo then (memo, memo[file])
    else if file in visiting then (memo, false)
    else
      assert visiting + {file} - {file} == visiting;
      var found := if file in g.matching then (memo, true)
          else SearchEach(g, memo, visiting + {file}, file, g.ImportsOf(file));
      (found.0[file := found.1], found.1)
  }

  function SearchEach(g: Graph, memo: Memo, visiting: set<File>, file: File, rest: seq<File>): (Memo, bool)
    requires file in visiting && (rest != [] ==> file in g.imports)
    decreases g.imports.Keys - (visiting - {file}), 0, |rest|
  {
    if rest == [] then (memo, false)
    else
      var first := SearchFrom(g, memo, visiting, rest[0]);
      if first.1 then first else SearchEach(g, first.0, visiting, file, rest[1..])
  }

  class IsolationScan {
    const g: Graph
    var memo: Memo
    var visiting: set<File>

    constructor (g: Graph)
      ensures this.g == g && memo == map[] && visiting == {}
    {
      this.g, memo, visiting := g, map[], {};
    }

    /** One outermost query: true exactly when a file that needs isolation can be reached without passing through a
        file already memoised false. On any graph, and after any queries, a true answer is right. */
    method RequiresIsolation(file: File, ghost rank: Option<map<File, nat>>) returns (result: bool)
      requires visiting == {}
      requires rank.Some? ==> Ranked(g, rank.value)
      modifies this`memo, this`visiting
      ensures visiting == {}
      ensures result <==> Leads(g, old(memo), file)
      ensures Extends(old(memo), memo) && file in memo && memo[file] == result
      ensures (memo, result) == SearchFrom(g, old(memo), {}, file)
      ensures Sound(g, old(memo)) ==> Sound(g, memo) && (result ==> NeedsIsolation(g, file))
      // what TrustworthyExactly needs of the memo
      ensures Explored(g, old(memo), {}) ==> Explored(g, memo, {})
      // exact as long as the memo is: from an empty memo, and through every query that answers false
      ensures Exact(g, old(memo)) ==> (result <==> NeedsIsolation(g, file))
      ensures Exact(g, old(memo)) && !result ==> Exact(g, memo)
      // and for every query when there are no import cycles
      ensures rank.Some? && Exact(g, old(memo)) ==> Exact(g, memo)
    {
      ghost var memo0 := memo;
      if Explored(g, memo0, {}) { SearchFromExplores(g, memo0, {}, file); }
      result := Search(file, memo0, rank);
      if !result {
        var added := set v | v in memo && v !in memo0;
        forall v | v in added || v == file
          ensures !Leads(g, memo0, v)
        {
          forall n: nat
            ensures !LeadsWithin(g, memo0, v, n)
          {
            ClosedLeadsNowhere(g, memo0, added, v, n);
          }
        }
        if Exact(g, memo0) {
          forall v | v in memo
            ensures memo[v] <==> NeedsIsolation(g, v)
          {
            if v !in memo0 { ExactMemoPrunesNothing(g, memo0, v); }
          }
        }
      }
      if Exact(g, memo0) { ExactMemoPrunesNothing(g, memo0, file); }
    }

    /** The recursive search. memo0 is the memo when the outermost query began; rank is given when there are no
        cycles. */
    method Search(file: File, ghost memo0: Memo, ghost rank: Option<map<File, nat>>) returns (result: bool)
      requires Extends(memo0, memo) && Fruitless(g, memo0, memo, visiting)
      requires forall v | v in visiting :: v !in memo
      requires rank.Some? ==>
                 Ranked(g, rank.value) && forall u | u in visiting :: RankOf(rank.value, file) < RankOf(rank.value, u)
      modifies this`memo, this`visiting
      ensures visiting == old(visiting)
      ensures Extends(old(memo), memo) && Extends(memo0, memo)
      ensures forall v | v in visiting :: v !in memo
      ensures result ==> Leads(g, memo0, file) && TrueOnlyIf(g, memo0, memo) && file !in visiting
      ensures !result ==> Fruitless(g, memo0, memo, visiting) && (file in visiting || (file in memo && !memo[file]))
      ensures file !in visiting ==> file in memo && memo[file] == result
      ensures Sound(g, old(memo)) ==> Sound(g, memo) && (result ==> NeedsIsolation(g, file))
      ensures rank.Some? && Exact(g, old(memo)) ==> Exact(g, memo) && file !in visiting
      ensures (memo, result) == SearchFrom(g, old(memo), visiting, file)
      decreases g.imports.Keys - visiting, 1
    {
      if file in memo {
        if memo[file] { assert LeadsWithin(g, memo0, file, 0); }
        return memo[file];
      }
      if file in visiting { return false; }
      visiting := visiting + {file};
      result := file in g.matching;
      if result {
        assert LeadsWithin(g, memo0, file, 0);
        assert LeadsWithin(g, map[], file, 0);
      } else {
        assert visiting - {file} == old(visiting);
        result := SearchImports(file, memo0, rank);
      }
      visiting := visiting - {file};
      memo := memo[file := result];
      assert visiting == old(visiting);
    }

    /** The loop over a file's imports, stopping at the first that needs isolation. */
    method SearchImports(file: File, ghost memo0: Memo, ghost rank: Option<map<File, nat>>) returns (result: bool)
      requires Extends(memo0, memo) && Fruitless(g, memo0, memo, visiting)
      requires forall v | v in visiting :: v !in memo
      requires file in visiting && file !in g.matching
      requires rank.Some? ==>
                 Ranked(g, rank.value) && forall u | u in visiting :: RankOf(rank.value, file) <= RankOf(rank.value, u)
      modifies this`memo, this`visiting
      ensures visiting == old(visiting)
      ensures Extends(old(memo), memo) && Extends(memo0, memo)
      ensures forall v | v in visiting :: v !in memo
      ensures result ==> Leads(g, memo0, file) && TrueOnlyIf(g, memo0, memo)
      ensures !result ==>
                Fruitless(g, memo0, memo, visiting) && forall w | w in g.ImportsOf(file) ::
                    w in visiting || (w in memo && !memo[w])
      ensures Sound(g, old(memo)) ==> Sound(g, memo) && (result ==> NeedsIsolation(g, file))
      ensures rank.Some? && Exact(g, old(memo)) ==> Exact(g, memo) && (result <==> NeedsIsolation(g, file))
      ensures (memo, result) == SearchEach(g, old(memo), visiting, file, g.ImportsOf(file))
      decreases g.imports.Keys - (visiting - {file}), 0
    {
      var imports := g.ImportsOf(file);
      for i := 0 to |imports|
        invariant visiting == old(visiting)
        invariant Extends(old(memo), memo) && Extends(memo0, memo) && Fruitless(g, memo0, memo, visiting)
        invariant forall v | v in visiting :: v !in memo
        invariant forall k | 0 <= k < i :: imports[k] in visiting || (imports[k] in memo && !memo[imports[k]])
        invariant Sound(g, old(memo)) ==> Sound(g, memo)
        invariant rank.Some? && Exact(g, old(memo)) ==>
                    Exact(g, memo) && forall k | 0 <= k < i :: imports[k] !in visiting
        invariant SearchEach(g, old(memo), visiting, file, imports) == SearchEach(g, memo, visiting, file, imports[i..])
      {
        assert imports[i..][0] == imports[i] && imports[i..][1..] == imports[i + 1..];
        result := Search(imports[i], memo0, rank);
        if result {
          assert file !in memo0;
          LeadsStep(g, memo0, file, imports[i]);
          if NeedsIsolation(g, imports[i]) { LeadsStep(g, map[], file, imports[i]); }
          return;
        }
      }
      if rank.Some? && Exact(g, old(memo)) { NoImportNeedsIt(g, file); }
      result := false;
    }
  }

  // ---- when can a memo be trusted? ----

  /** Every import of a file memoised false is memoised, or still being visited. */
  ghost predicate Explored(g: Graph, memo: Memo, visiting: set<File>) {
    forall v | v in memo && !memo[v] ::
      v !in g.matching && forall w | w in g.ImportsOf(v) :: w in memo || w in visiting
  }

  lemma {:induction false} SearchFromExplores(g: Graph, memo: Memo, visiting: set<File>, file: File)
    requires Explored(g, memo, visiting)
    ensures var found := SearchFrom(g, memo, visiting, file).0;
            Explored(g, found, visiting) && memo.Keys <= found.Keys && (file in found || file in visiting)
    decreases g.imports.Keys - visiting, 1, 0
  {
    if file in memo || file in visiting {
    } else {
      assert visiting + {file} - {file} == visiting;
      if file !in g.matching {
        SearchEachExplores(g, memo, visiting + {file}, file, g.ImportsOf(file));
      }
    }
  }

  lemma {:induction false} SearchEachExplores(g: Graph, memo: Memo, visiting: set<File>, file: File, rest: seq<File>)
    requires file in visiting && (rest != [] ==> file in g.imports) && Explored(g, memo, visiting)
    ensures var found := SearchEach(g, memo, visiting, file, rest);
            && Explored(g, found.0, visiting) && memo.Keys <= found.0.Keys
            && (!found.1 ==> forall w | w in rest :: w in found.0 || w in visiting)
    decreases g.imports.Keys - (visiting - {file}), 0, |rest|
  {
    if rest == [] {
    } else {
      SearchFromExplores(g, memo, visiting, rest[0]);
      var first := SearchFrom(g, memo, visiting, rest[0]);
      if !first.1 {
        SearchEachExplores(g, first.0, visiting, file, rest[1..]);
        assert forall w :: w in rest <==> w == rest[0] || w in rest[1..];
      }
    }
  }

  /** No file memoised false imports one memoised true: this can be read off the memo and the imports. */
  ghost predicate NoFalseAboveTrue(g: Graph, memo: Memo) {
    forall v, w | v in memo && !memo[v] && w in g.ImportsOf(v) && w in memo :: !memo[w]
  }

  /** After any queries on any graph: every further query would be answered rightly if and only if the memo is exact,
      and that is the case if and only if no file memoised false imports one memoised true. */
  lemma TrustworthyExactly(g: Graph, memo: Memo)
    requires Sound(g, memo) && Explored(g, memo, {})
    ensures (forall f :: Leads(g, memo, f) <==> NeedsIsolation(g, f)) <==> Exact(g, memo)
    ensures Exact(g, memo) <==> NoFalseAboveTrue(g, memo)
  {
    if forall f :: Leads(g, memo, f) <==> NeedsIsolation(g, f) {
      forall v | v in memo
        ensures memo[v] <==> NeedsIsolation(g, v)
      {
        assert LeadsWithin(g, memo, v, 0) == memo[v];
        assert NeedsIsolation(g, v) <==> Leads(g, memo, v);
      }
    }
    if Exact(g, memo) {
      forall f
        ensures Leads(g, memo, f) <==> NeedsIsolation(g, f)
      {
        ExactMemoPrunesNothing(g, memo, f);
      }
      forall v, w | v in memo && !memo[v] && w in g.ImportsOf(v) && w in memo
        ensures !memo[w]
      {
        if NeedsIsolation(g, w) { LeadsStep(g, map[], v, w); }
      }
    }
    if NoFalseAboveTrue(g, memo) { FalseEntriesAreClosed(g, memo); }
  }

  lemma FalseEntriesAreClosed(g: Graph, memo: Memo)
    requires Sound(g, memo) && Explored(g, memo, {}) && NoFalseAboveTrue(g, memo)
    ensures Exact(g, memo)
  {
    var none := set v | v in memo && !memo[v];
    forall v | v in none
      ensures !NeedsIsolation(g, v)
    {
      forall n: nat
        ensures !LeadsWithin(g, map[], v, n)
      {
        ClosedLeadsNowhere(g, map[], none, v, n);
      }
    }
  }

  /** Inside an import cycle a file can be memoised false while the file it is waiting for turns out true; a later
      query for it is then answered wrongly. */
  lemma CycleMisleadsLaterQuery()
    ensures var g := Graph(map["a" := ["b", "m"], "b" := ["a"]], {"m"});
            var first := SearchFrom(g, map[], {}, "a");
            first.1 && !SearchFrom(g, first.0, {}, "b").1 && NeedsIsolation(g, "b")
  {
    var g := Graph(map["a" := ["b", "m"], "b" := ["a"]], {"m"});
    var none: Memo := map[];
    var va, vab: set<File> := {"a"}, {"a", "b"};
    assert {} + {"a"} == va && va + {"b"} == vab;
    assert SearchFrom(g, none, vab, "a") == (none, false);
    assert ["a"][1..] == [];
    assert SearchEach(g, none, vab, "b", ["a"]) == (none, false);
    var b: Memo := map["b" := false];
    assert SearchFrom(g, none, va, "b") == (b, false);
    var bm: Memo := b["m" := true];
    assert SearchFrom(g, b, va, "m") == (bm, true);
    assert ["b", "m"][1..] == ["m"];
    assert SearchEach(g, b, va, "a", ["m"]) == (bm, true);
    assert SearchEach(g, none, va, "a", ["b", "m"]) == (bm, true);
    assert SearchFrom(g, none, {}, "a") == (bm["a" := true], true);
    assert LeadsWithin(g, none, "m", 0);
    assert "m" in g.ImportsOf("a") && LeadsWithin(g, none, "a", 1);
    assert "a" in g.ImportsOf("b") && LeadsWithin(g, none, "b", 2);
  }

  // ---- partitioning the test files ----

  datatype Test = Test(file: File, environment: Option<string>)

  const ISOLATED_ENVIRONMENTS: set<string> := {"jsdom", "happy-dom"}

  predicate EnvironmentIsolates(environment: Option<string>) {
    (if environment.Some? then environment.value else "node") in ISOLATED_ENVIRONMENTS
  }

  type Groups = map<Option<string>, set<File>>

  /** A file's environment is read from the file itself, so it is the same each time the file is met. */
  ghost predicate Consistent(tests: seq<Test>) {
    forall s, t | s in tests && t in tests && s.file == t.file :: s == t
  }

  /** Isolated, or in the group of its environment, and in nothing else. */
  ghost predicate Placed(t: Test, groups: Groups, isolated: set<File>) {
    && (t.file in isolated <==> !(t.environment in groups && t.file in groups[t.environment]))
    && forall e | e in groups && t.file in groups[e] :: e == t.environment
  }

  /** What the partition says of the tests met so far. */
  ghost predicate PartitionOf(tests: seq<Test>, memo: Memo, groups: Groups, isolated: set<File>) {
    && (forall t | t in tests :: Placed(t, groups, isolated))
    && (forall t | t in tests :: t.file in isolated <==>
           EnvironmentIsolates(t.environment) || (t.file in memo && memo[t.file]))
    && (forall e, f | e in groups && f in groups[e] :: Test(f, e) in tests)
    && (forall f | f in isolated :: exists e :: Test(f, e) in tests)
  }

  lemma PartitionGrows(tests: seq<Test>, t: Test, memo: Memo, memo': Memo, groups: Groups, isolated: set<File>,
                       groups': Groups, isolated': set<File>, needs: bool)
    requires PartitionOf(tests, memo, groups, isolated) && Consistent(tests + [t])
    requires Extends(memo, memo') && (forall s | s in tests && !EnvironmentIsolates(s.environment) :: s.file in memo)
    requires needs <==> EnvironmentIsolates(t.environment) || (t.file in memo' && memo'[t.file])
    requires if needs then groups' == groups && isolated' == isolated + {t.file}
             else isolated' == isolated &&
                  groups' == groups[t.environment := (if t.environment in groups then groups[t.environment] else {}) +
                      {t.file}]
    ensures PartitionOf(tests + [t], memo', groups', isolated')
  {
    var all := tests + [t];
    assert forall s | s in tests :: s in all;
    assert t in all;
    forall s | s in all
      ensures s.file in isolated' <==> EnvironmentIsolates(s.environment) || (s.file in memo' && memo'[s.file])
      ensures Placed(s, groups', isolated')
    {
      if s.file == t.file { assert s == t; }
    }
    forall f | f in isolated'
      ensures exists e :: Test(f, e) in all
    {
      if f in isolated {
        var e :| Test(f, e) in tests;
        assert Test(f, e) in all;
      } else {
        assert Test(t.file, t.environment) in all;
      }
    }
  }

  /** Each test file lands in exactly one place. On any graph a file is isolated only for its environment or because it
      does lead to a file that needs isolation; when imports have no cycle, exactly then. */
  method PartitionTestFiles(g: Graph, tests: seq<Test>, ghost rank: Option<map<File, nat>>)
    returns (groups: Groups, isolated: set<File>)
    requires Consistent(tests) && (rank.Some? ==> Ranked(g, rank.value))
    ensures forall t | t in tests :: Placed(t, groups, isolated)
    ensures forall e, f | e in groups && f in groups[e] :: Test(f, e) in tests
    ensures forall f | f in isolated :: exists e :: Test(f, e) in tests
    ensures forall e | e in groups :: groups[e] != {}
    ensures forall t | t in tests && (t.environment == Some("jsdom") || t.environment == Some("happy-dom")) ::
              t.file in isolated
    ensures forall t | t in tests && t.file in isolated ::
              t.environment == Some("jsdom") || t.environment == Some("happy-dom") || NeedsIsolation(g, t.file)
    ensures rank.Some? ==> forall t | t in tests && NeedsIsolation(g, t.file) :: t.file in isolated
  {
    var scan := new IsolationScan(g);
    groups, isolated := map[], {};
    for i := 0 to |tests|
      invariant scan.visiting == {}
      invariant PartitionOf(tests[..i], scan.memo, groups, isolated)
      invariant forall e | e in groups :: groups[e] != {}
      invariant Sound(g, scan.memo) && (rank.Some? ==> Exact(g, scan.memo))
      invariant forall t | t in tests[..i] && !EnvironmentIsolates(t.environment) :: t.file in scan.memo
    {
      var t := tests[i];
      ghost var memo, groups0, isolated0 := scan.memo, groups, isolated;
      var needs := EnvironmentIsolates(t.environment);
      if !needs {
        needs := scan.RequiresIsolation(t.file, rank);
      }
      if needs {
        isolated := isolated + {t.file};
      } else {
        groups := groups[t.environment := (if t.environment in groups then groups[t.environment] else {}) + {t.file}];
      }
      assert tests[..i + 1] == tests[..i] + [t];
      PartitionGrows(tests[..i], t, memo, scan.memo, groups0, isolated0, groups, isolated, needs);
    }
    assert tests[..|tests|] == tests;
  }

  // ---- the generated projects ----

  datatype Project = Project(environment: Option<string>, isolate: bool, exclude: set<File>)

  /** A file that matches the include pattern runs in a project unless the project excludes it. */
  predicate Runs(p: Project, f: File) {
    f !in p.exclude
  }

  /** One project per group, in its environment, and one for the isolated files; each excludes all other test files. */
  ghost predicate AreProjects(groups: seq<(Option<string>, set<File>)>, isolated: set<File>, projects: seq<Project>) {
    var all := AllFiles(groups, isolated);
    && |projects| == |groups| + (if isolated == {} then 0 else 1)
    && (forall k | 0 <= k < |groups| :: projects[k] == Project(groups[k].0, false, all - groups[k].1))
    && (isolated != {} ==> projects[|groups|] == Project(None, true, all - isolated))
  }

  /** Every test file runs in exactly one project. */
  ghost predicate RunsOnce(projects: seq<Project>, f: File, isolate: bool) {
    exists i :: 0 <= i < |projects| && Runs(projects[i], f) && projects[i].isolate == isolate &&
      forall j | 0 <= j < |projects| && Runs(projects[j], f) :: j == i
  }

  lemma EachRunsOnce(groups: seq<(Option<string>, set<File>)>, isolated: set<File>, projects: seq<Project>, f: File)
    requires forall i, j | 0 <= i < j < |groups| :: groups[i].1 !! groups[j].1
    requires forall i | 0 <= i < |groups| :: groups[i].1 !! isolated
    requires AreProjects(groups, isolated, projects) && f in AllFiles(groups, isolated)
    ensures RunsOnce(projects, f, f in isolated)
  {
    if f in isolated {
      var i := |groups|;
      assert Runs(projects[i], f);
    } else {
      var i :| 0 <= i < |groups| && f in groups[i].1;
      assert Runs(projects[i], f);
      forall k | 0 <= k < |groups| && k != i
        ensures f !in groups[k].1
      {
        assert groups[k].1 !! groups[i].1;
      }
    }
  }

  /** Every test file runs in exactly one project, an isolating one or one with its group's environment. No project is
      there for nothing, except the one generated when there is no test file at all. */
  method SharedWorkerProjects(groups: seq<(Option<string>, set<File>)>,
                              isolated: set<File>) returns (projects: seq<Project>)
    requires forall i, j | 0 <= i < j < |groups| :: groups[i].1 !! groups[j].1
    requires forall i | 0 <= i < |groups| :: groups[i].1 !! isolated
    ensures forall f | f in AllFiles(groups, isolated) :: RunsOnce(projects, f, f in isolated)
    ensures forall i, k, f | 0 <= i < |projects| && 0 <= k < |groups| && f in groups[k].1 && Runs(projects[i], f) ::
              projects[i].environment == groups[k].0
    ensures forall i | 0 <= i < |projects| :: projects[i].exclude <= AllFiles(groups, isolated)
    ensures if AllFiles(groups, isolated) == {} then projects == [Project(None, true, {})]
            else |projects| == |groups| + if isolated == {} then 0 else 1
  {
    var all := AllFiles(groups, isolated);
    if all == {} {
      return [Project(None, true, {})];
    }
    projects := [];
    for i := 0 to |groups|
      invariant |projects| == i
      invariant forall k | 0 <= k < i :: projects[k] == Project(groups[k].0, false, all - groups[k].1)
    {
      projects := projects + [Project(groups[i].0, false, all - groups[i].1)];
    }
    if isolated != {} {
      projects := projects + [Project(None, true, all - isolated)];
    }
    forall f | f in all
      ensures RunsOnce(projects, f, f in isolated)
    {
      EachRunsOnce(groups, isolated, projects, f);
    }
    InOwnEnvironment(groups, isolated, projects);
  }

  lemma InOwnEnvironment(groups: seq<(Option<string>, set<File>)>, isolated: set<File>, projects: seq<Project>)
    requires forall i, j | 0 <= i < j < |groups| :: groups[i].1 !! groups[j].1
    requires forall i | 0 <= i < |groups| :: groups[i].1 !! isolated
    requires AreProjects(groups, isolated, projects)
    ensures forall i, k, f | 0 <= i < |projects| && 0 <= k < |groups| && f in groups[k].1 && Runs(projects[i], f) ::
              projects[i].environment == groups[k].0
  {
    forall i, k, f | 0 <= i < |projects| && 0 <= k < |groups| && f in groups[k].1 && Runs(projects[i], f)
      ensures projects[i].environment == groups[k].0
    {
      EachRunsOnce(groups, isolated, projects, f);
      assert Runs(projects[k], f);
    }
  }

  function AllFiles(groups: seq<(Option<string>, set<File>)>, isolated: set<File>): (all: set<File>)
    ensures forall f :: f in all <==> f in isolated || exists i :: 0 <= i < |groups| && f in groups[i].1
  {
    if groups == [] then isolated
    else
      var rest := AllFiles(groups[1..], isolated);
      assert forall i | 0 <= i < |groups| - 1 :: groups[1..][i] == groups[i + 1];
      assert forall f | (exists i :: 0 <= i < |groups| && f in groups[i].1) ::
          f in groups[0].1 || exists i :: 0 <= i < |groups[1..]| && f in groups[1..][i].1 by {
        forall f, i | 0 <= i < |groups| && f in groups[i].1
          ensures f in groups[0].1 || exists k :: 0 <= k < |groups[1..]| && f in groups[1..][k].1
        {
          if i > 0 { assert f in groups[1..][i - 1].1; }
        }
      }
      groups[0].1 + rest
  }
}
