/** Relative links of a note: building one from the note's folder to a target, and resolving it again. */
module Links {
  import opened Paths

  /** What String.split("/") gives for a clean path: no empty, "." or ".." segment. */
  predicate CleanSegment(s: string) {
    s != "" && s != "." && s != ".." && '/' !in s
  }

  predicate Clean(p: Path) {
    forall i | 0 <= i < |p| :: CleanSegment(p[i])
  }

  /** base ? base.split("/") : [] */
  function FolderSegments(base: string): Path {
    if base == "" then [] else Split(base)
  }

  // ---- resolving ----

  /** The stack after one part of a relative link. */
  function Turn(stack: Path, part: string): Path {
    if part == "" || part == "." then stack
    else if part == ".." then if stack == [] then [] else stack[..|stack| - 1]
    else stack + [part]
  }

  function Resolve(stack: Path, parts: seq<string>): Path
    decreases |parts|
  {
    if parts == [] then stack else Resolve(Turn(stack, parts[0]), parts[1..])
  }

  function WithoutSlash(s: string): string {
    if s != "" && s[0] == '/' then s[1..] else s
  }

  predicate StartsWithDot(s: string) {
    s != "" && s[0] == '.'
  }

  function Normalized(base: string, relative: string): string {
    if !StartsWithDot(relative) then WithoutSlash(relative)
    else Join(Resolve(FolderSegments(base), Split(relative)))
  }

  method NormalizeRelative(base: string, relative: string) returns (r: string)
    ensures r == Normalized(base, relative)
  {
    if !StartsWithDot(relative) {
      return WithoutSlash(relative);
    }
    var stack := FolderSegments(base);
    var parts := Split(relative);
    for i := 0 to |parts|
      invariant Resolve(stack, parts[i..]) == Resolve(FolderSegments(base), parts)
    {
      var part := parts[i];
      assert parts[i..][1..] == parts[i + 1..];
      if part == "" || part == "." {
        continue;
      }
      if part == ".." {
        if stack != [] { stack := stack[..|stack| - 1]; }
      } else {
        stack := stack + [part];
      }
    }
    r := Join(stack);
  }

  // ---- building ----

  function CommonLength(a: Path, b: Path): (n: nat)
    ensures n <= |a| && n <= |b| && a[..n] == b[..n]
  {
    if a == [] || b == [] || a[0] == "" || a[0] != b[0] then 0 else 1 + CommonLength(a[1..], b[1..])
  }

  function Ups(n: nat): Path {
    seq(n, _ => "..")
  }

  function Related(base: string, target: string): string {
    var from, to := FolderSegments(base), Split(target);
    var n := CommonLength(from, to);
    var ups, down := Ups(|from| - n), to[n..];
    var link := Join(ups) + (if ups != [] && down != [] then "/" else "") + Join(down);
    if link == "" then "." else link
  }

  method RelativeFrom(base: string, target: string) returns (r: string)
    ensures r == Related(base, target)
  {
    var from, to := FolderSegments(base), Split(target);
    ghost var from0, to0 := from, to;
    ghost var n := 0;
    while from != [] && from[0] != "" && to != [] && from[0] == to[0]
      invariant n <= |from0| && n <= |to0| && from == from0[n..] && to == to0[n..]
      invariant CommonLength(from0, to0) == n + CommonLength(from, to)
      decreases |from|
    {
      from, to := from[1..], to[1..];
      n := n + 1;
    }
    assert CommonLength(from, to) == 0;
    var ups := Ups(|from|);
    var link := Join(ups) + (if |from| > 0 && |to| > 0 then "/" else "") + Join(to);
    r := if link == "" then "." else link;
  }

  /** storedMarkdown prefixes "./" unless the link already starts with a dot. */
  function Stored(base: string, target: string): string {
    Dotted(Related(base, target))
  }

  function Dotted(link: string): string {
    if StartsWithDot(link) then link else "./" + link
  }

  // ---- the round trip ----

  lemma {:induction false} ResolveConcat(stack: Path, a: seq<string>, b: seq<string>)
    ensures Resolve(stack, a + b) == Resolve(Resolve(stack, a), b)
    decreases |a|
  {
    if a == [] {
      assert a + b == b;
    } else {
      assert (a + b)[1..] == a[1..] + b;
      ResolveConcat(Turn(stack, a[0]), a[1..], b);
    }
  }

  /** Climbing above the root stays at the root. */
  lemma {:induction false} ResolveUps(stack: Path, n: nat)
    ensures Resolve(stack, Ups(n)) == if n <= |stack| then stack[..|stack| - n] else []
    decreases n
  {
    if n > 0 {
      assert Ups(n)[1..] == Ups(n - 1);
      ResolveUps(Turn(stack, ".."), n - 1);
    } else {
      assert stack[..|stack|] == stack;
    }
  }

  lemma {:induction false} ResolveClean(stack: Path, parts: Path)
    requires Clean(parts)
    ensures Resolve(stack, parts) == stack + parts
    decreases |parts|
  {
    if parts == [] {
      assert stack + parts == stack;
    } else {
      ResolveClean(stack + [parts[0]], parts[1..]);
      assert stack + [parts[0]] + parts[1..] == stack + parts;
    }
  }

  lemma {:induction false} ResolveStaysClean(stack: Path, parts: seq<string>)
    requires Clean(stack) && forall i | 0 <= i < |parts| :: '/' !in parts[i]
    ensures Clean(Resolve(stack, parts))
    decreases |parts|
  {
    if parts == [] {
    } else {
      ResolveStaysClean(Turn(stack, parts[0]), parts[1..]);
    }
  }

  lemma {:induction false} JoinConcat(a: Path, b: Path)
    requires a != [] && b != []
    ensures Join(a + b) == Join(a) + "/" + Join(b)
    decreases |a|
  {
    if |a| == 1 {
      assert (a + b)[1..] == b;
    } else {
      assert (a + b)[1..] == a[1..] + b;
      JoinConcat(a[1..], b);
    }
  }

  /** The plain relative link, before an empty one becomes ".". */
  function Plain(base: string, target: string): Path {
    var from, to := FolderSegments(base), Split(target);
    var n := CommonLength(from, to);
    Ups(|from| - n) + to[n..]
  }

  lemma PlainHasParts(base: string, target: string)
    ensures forall i | 0 <= i < |Plain(base, target)| :: '/' !in Plain(base, target)[i]
  {
    JoinSplit(target);
  }

  lemma RelatedIsPlain(base: string, target: string)
    ensures var link := Join(Plain(base, target)); Related(base, target) == if link == "" then "." else link
  {
    var from, to := FolderSegments(base), Split(target);
    var n := CommonLength(from, to);
    JoinBoth(Ups(|from| - n), to[n..]);
  }

  lemma JoinBoth(ups: Path, down: Path)
    ensures Join(ups + down) == Join(ups) + (if ups != [] && down != [] then "/" else "") + Join(down)
  {
    if ups != [] && down != [] {
      JoinConcat(ups, down);
    } else if ups == [] {
      assert ups + down == down && Join(ups) == "";
      assert Join(ups) + "" + Join(down) == Join(down);
    } else {
      assert ups + down == ups && Join(down) == "";
      assert Join(ups) + "" + Join(down) == Join(ups);
    }
  }

  /** The parts the resolution of a link walks over. */
  lemma DottedParts(parts: Path)
    requires Join(parts) != "" && forall i | 0 <= i < |parts| :: '/' !in parts[i]
    ensures Split(Dotted(Join(parts))) == if StartsWithDot(Join(parts)) then parts else ["."] + parts
  {
    SplitJoin(parts);
    if !StartsWithDot(Join(parts)) {
      DotSlash(Join(parts));
    }
  }

  lemma DotSlash(s: string)
    ensures Split("./" + s) == ["."] + Split(s)
  {
    var t := "./" + s;
    assert t[0] == '.' && t[1] == '/' && t[1..][0] == '/';
    assert FirstSlash(t) == 1;
    assert t[..1] == "." && t[2..] == s;
  }

  lemma ResolveDots(stack: Path, parts: seq<string>)
    ensures Resolve(stack, ["."] + parts) == Resolve(stack, parts)
  {
    assert (["."] + parts)[1..] == parts;
  }

  lemma StoredResolves(base: string, target: string)
    ensures var from, parts := FolderSegments(base), Plain(base, target);
            Normalized(base, Stored(base, target)) == Join(if Join(parts) == "" then from else Resolve(from, parts))
  {
    RelatedIsPlain(base, target);
    PlainHasParts(base, target);
    var from, parts := FolderSegments(base), Plain(base, target);
    assert Stored(base, target) == Dotted(Related(base, target));
    if Join(parts) == "" {
      SplitJoin(["."]);
      assert Resolve(from, ["."]) == from;
    } else {
      DottedParts(parts);
      ResolveDots(from, parts);
    }
  }

  /** A link that starts with a dot resolves to nothing or to a clean path. */
  lemma ResolvesClean(base: string, link: string)
    requires Clean(FolderSegments(base)) && StartsWithDot(link)
    ensures var r := Normalized(base, link); r == "" || Clean(Split(r))
  {
    JoinSplit(link);
    ResolveStaysClean(FolderSegments(base), Split(link));
    var p := Resolve(FolderSegments(base), Split(link));
    if p != [] { SplitJoin(p); }
  }

  /** For every folder path and every target string: resolving the stored link gives the target back exactly when the
      target is empty or clean. In particular every path inside the vault survives. */
  lemma LinkRoundTrip(base: string, target: string)
    requires Clean(FolderSegments(base))
    ensures Normalized(base, Stored(base, target)) == target <==> target == "" || Clean(Split(target))
  {
    ResolvesClean(base, Stored(base, target));
    if target == "" {
      EmptyTarget(base);
    } else if Clean(Split(target)) {
      CleanTarget(base, target);
    }
  }

  lemma EmptyTarget(base: string)
    requires Clean(FolderSegments(base))
    ensures Normalized(base, Stored(base, "")) == ""
  {
    StoredResolves(base, "");
    var from := FolderSegments(base);
    assert Split("") == [""] && CommonLength(from, [""]) == 0;
    assert Plain(base, "") == Ups(|from|) + [""];
    ResolveConcat(from, Ups(|from|), [""]);
    ResolveUps(from, |from|);
    assert Resolve([], [""]) == [];
    assert from != [] ==> (Ups(|from|) + [""])[0] == "..";
  }

  lemma CleanTarget(base: string, target: string)
    requires Clean(FolderSegments(base)) && Clean(Split(target))
    ensures Normalized(base, Stored(base, target)) == target
  {
    StoredResolves(base, target);
    JoinSplit(target);
    var from, to := FolderSegments(base), Split(target);
    var n := CommonLength(from, to);
    SamePath(from, to, n);
    PlainResolves(from, to, n);
  }

  lemma PlainResolves(from: Path, to: Path, n: nat)
    requires Clean(to) && n <= |from| && n <= |to| && from[..n] == to[..n]
    ensures Resolve(from, Ups(|from| - n) + to[n..]) == to
  {
    ResolveConcat(from, Ups(|from| - n), to[n..]);
    ResolveUps(from, |from| - n);
    assert from[..|from| - (|from| - n)] == from[..n];
    ResolveClean(from[..n], to[n..]);
    assert from[..n] + to[n..] == to;
  }

  lemma SamePath(from: Path, to: Path, n: nat)
    requires Clean(to) && to != [] && n <= |from| && n <= |to| && from[..n] == to[..n]
    ensures Join(Ups(|from| - n) + to[n..]) == "" ==> from == to
  {
    var parts := Ups(|from| - n) + to[n..];
    if n < |from| {
      assert parts[0] == "..";
    } else if n < |to| {
      assert parts[0] == to[n];
    } else {
      assert from == from[..n] && to == to[..n];
    }
  }

  lemma FolderOfPath(from: Path)
    requires Clean(from)
    ensures FolderSegments(Join(from)) == from
  {
    if from != [] {
      SplitJoin(from);
      assert Join(from) == "" ==> Split(Join(from)) == [""];
    }
  }

  /** What a relative link means: from the note's folder some steps up, no further than the root, then down. */
  lemma LinkIsRelative(from: Path, n: nat, down: Path)
    requires Clean(from) && Clean(down)
    ensures Normalized(Join(from), Join(["."] + Ups(n) + down)) ==
            Join((if n <= |from| then from[..|from| - n] else []) + down)
  {
    FolderOfPath(from);
    DotThenParts(Ups(n) + down);
    assert ["."] + Ups(n) + down == ["."] + (Ups(n) + down);
    UpThenDown(from, n, down);
  }

  lemma UpThenDown(from: Path, n: nat, down: Path)
    requires Clean(down)
    ensures Resolve(from, ["."] + (Ups(n) + down)) == (if n <= |from| then from[..|from| - n] else []) + down
  {
    ResolveDots(from, Ups(n) + down);
    ResolveConcat(from, Ups(n), down);
    ResolveUps(from, n);
    ResolveClean(Resolve(from, Ups(n)), down);
  }

  lemma DotThenParts(parts: seq<string>)
    requires forall i | 0 <= i < |parts| :: '/' !in parts[i]
    ensures StartsWithDot(Join(["."] + parts)) && Split(Join(["."] + parts)) == ["."] + parts
  {
    SplitJoin(["."] + parts);
    assert (["."] + parts)[1..] == parts;
  }

  /** A link without a leading dot is a path from the vault's root, with or without a leading slash. */
  lemma LinkFromRoot(base: string, target: string)
    ensures Normalized(base, "/" + target) == target
    ensures target == "" || (target[0] != '/' && target[0] != '.') ==> Normalized(base, target) == target
  {
    assert ("/" + target)[1..] == target;
  }

  // ---- no link is shorter ----

  /** The steps up and down between two folders. */
  function Distance(a: Path, b: Path): nat {
    |a| + |b| - 2 * CommonLength(a, b)
  }

  lemma {:induction false} CommonIsLongest(a: Path, b: Path, n: nat)
    requires Clean(a) && n <= |a| && n <= |b| && a[..n] == b[..n]
    ensures n <= CommonLength(a, b)
    decreases |a|
  {
    if n == 0 {
    } else {
      assert a[0] == a[..n][0] == b[..n][0] == b[0];
      assert a[1..][..n - 1] == a[..n][1..] == b[..n][1..] == b[1..][..n - 1];
      CommonIsLongest(a[1..], b[1..], n - 1);
    }
  }

  lemma TurnIsOneStep(stack: Path, part: string, to: Path)
    requires Clean(stack) && '/' !in part
    ensures Distance(stack, to) <= 1 + Distance(Turn(stack, part), to)
  {
    var next := Turn(stack, part);
    var n := CommonLength(next, to);
    var kept := if n <= |stack| then n else |stack|;
    assert stack[..kept] == next[..n][..kept] == to[..n][..kept] == to[..kept];
    CommonIsLongest(stack, to, kept);
  }

  lemma {:induction false} ResolveTakesSteps(stack: Path, parts: seq<string>, to: Path)
    requires Clean(stack) && forall i | 0 <= i < |parts| :: '/' !in parts[i]
    ensures Distance(stack, to) <= |parts| + Distance(Resolve(stack, parts), to)
    decreases |parts|
  {
    if parts == [] {
    } else {
      TurnIsOneStep(stack, parts[0], to);
      ResolveTakesSteps(Turn(stack, parts[0]), parts[1..], to);
    }
  }

  /** No link that leads from the folder to the target has fewer parts than the one built. */
  lemma ShortestLink(base: string, target: string, link: string)
    requires Clean(FolderSegments(base)) && Clean(Split(target))
    requires StartsWithDot(link) && Normalized(base, link) == target
    ensures |Split(Related(base, target))| <= |Split(link)|
  {
    var from, to, parts := FolderSegments(base), Split(target), Split(link);
    JoinSplit(link);
    ResolveStaysClean(from, parts);
    OnlyPathOf(Resolve(from, parts), target);
    ResolveTakesSteps(from, parts, to);
    CommonIsLongest(to, to, |to|);
    RelatedSteps(base, target);
  }

  lemma OnlyPathOf(p: Path, target: string)
    requires Clean(p) && Join(p) == target && Clean(Split(target))
    ensures p == Split(target)
  {
    assert Join([]) == "" && Split("") == [""] && !Clean([""]) by {
        assert !CleanSegment([""][0]);
      }
    SplitJoin(p);
  }

  lemma RelatedSteps(base: string, target: string)
    ensures var n := Distance(FolderSegments(base), Split(target));
            |Split(Related(base, target))| <= if n == 0 then 1 else n
  {
    RelatedIsPlain(base, target);
    PlainHasParts(base, target);
    var plain := Plain(base, target);
    if Join(plain) == "" {
      assert Split(".") == ["."];
    } else {
      SplitJoin(plain);
    }
  }

  /** A stored link starts with a dot, and "./" is put before it only where it did not. */
  lemma StoredIsRelated(base: string, target: string)
    ensures StartsWithDot(Stored(base, target))
    ensures if StartsWithDot(Related(base, target)) then Stored(base, target) == Related(base, target)
            else Stored(base, target) == "./" + Related(base, target)
  {
  }

  /** Showing a note and storing it again: a source that starts with a dot always keeps pointing at the same path; any
      other source does exactly when, without a leading slash, it is empty or clean. */
  lemma StoreKeepsTargets(base: string, source: string)
    requires Clean(FolderSegments(base))
    ensures var shown := Normalized(base, source);
            Normalized(base, Stored(base, shown)) == shown <==>
              StartsWithDot(source) || WithoutSlash(source) == "" || Clean(Split(WithoutSlash(source)))
  {
    var shown := Normalized(base, source);
    LinkRoundTrip(base, shown);
    if StartsWithDot(source) { ResolvesClean(base, source); }
  }
}
