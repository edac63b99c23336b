/** Vault paths: non-empty sequences of segments, as the source obtains them by splitting on '/'.
    "q < p" is Dafny's proper-prefix order, so it reads "q is a folder above p". */
module Paths {

  type Path = seq<string>

  /** Every folder strictly between the vault root and p. */
  function Parents(p: Path): (r: set<Path>)
    ensures forall q :: q in r <==> q != [] && q < p
  {
    var r := set i | 0 < i < |p| :: p[..i];
    assert forall q: Path | q != [] && q < p :: q == p[..|q|];
    r
  }

  function ParentsOfAll(ps: set<Path>): (r: set<Path>)
    ensures forall q :: q in r <==> exists p :: p in ps && q in Parents(p)
  {
    set p, q | p in ps && q in Parents(p) :: q
  }

  // ---- segments and the '/'-joined strings they stand for ----

  /** What the path parser accepts as one segment: not empty, not hidden, not "." or "..", no separator. */
  predicate VaultSegment(s: string) {
    s != "" && s[0] != '.' && '/' !in s && '\\' !in s && '\0' !in s
  }

  /** "C:/…" is an absolute path elsewhere. */
  predicate StartsAtDrive(p: Path) {
    |p| > 1 && |p[0]| == 2 && p[0][1] == ':' && IsLetter(p[0][0])
  }

  predicate IsLetter(c: char) {
    'a' <= c <= 'z' || 'A' <= c <= 'Z'
  }

  predicate VaultPath(p: Path) {
    p != [] && !StartsAtDrive(p) && forall i | 0 <= i < |p| :: VaultSegment(p[i])
  }

  function Join(p: Path): string {
    if p == [] then "" else if |p| == 1 then p[0] else p[0] + "/" + Join(p[1..])
  }

  function FirstSlash(s: string): (i: nat)
    ensures i <= |s|
    ensures forall k | 0 <= k < i :: s[k] != '/'
    ensures i < |s| ==> s[i] == '/'
  {
    if s == "" || s[0] == '/' then 0 else 1 + FirstSlash(s[1..])
  }

  /** String.split("/"). */
  function Split(s: string): (p: seq<string>)
    ensures p != []
    decreases |s|
  {
    var i := FirstSlash(s);
    if i == |s| then [s] else [s[..i]] + Split(s[i + 1..])
  }

  /** And joining undoes splitting: no other path stands for this string. */
  lemma {:induction false} JoinSplit(s: string)
    ensures Join(Split(s)) == s && forall i | 0 <= i < |Split(s)| :: '/' !in Split(s)[i]
    decreases |s|
  {
    var i := FirstSlash(s);
    if i == |s| {
      assert Split(s) == [s];
    } else {
      var rest := Split(s[i + 1..]);
      JoinSplit(s[i + 1..]);
      assert Split(s) == [s[..i]] + rest && ([s[..i]] + rest)[1..] == rest;
      assert s == s[..i] + "/" + s[i + 1..];
    }
  }

  /** On names: no slash at either end and no two in a row, nothing hidden, none of the two forbidden characters. */
  predicate CleanName(s: string) {
    && s != "" && s[0] != '/' && s[0] != '.' && s[|s| - 1] != '/' && '\\' !in s && '\0' !in s
    && forall i | 0 <= i < |s| - 1 && s[i] == '/' :: s[i + 1] != '/' && s[i + 1] != '.'
  }

  predicate VaultSegments(p: Path) {
    forall i | 0 <= i < |p| :: VaultSegment(p[i])
  }

  lemma ConsSegments(a: string, rest: Path)
    ensures VaultSegments([a] + rest) <==> VaultSegment(a) && VaultSegments(rest)
  {
    var p := [a] + rest;
    assert p[0] == a && forall i | 0 <= i < |rest| :: p[i + 1] == rest[i];
  }

  lemma {:induction false} SegmentsOnNames(s: string)
    ensures VaultSegments(Split(s)) <==> CleanName(s)
    decreases |s|
  {
    var n := FirstSlash(s);
    if n == |s| {
      assert [s][0] == s && '/' !in s;
      assert VaultSegment(s) <==> CleanName(s);
    } else {
      SegmentsOnNames(s[n + 1..]);
      ConsSegments(s[..n], Split(s[n + 1..]));
      CleanAtSlash(s, n);
    }
  }

  lemma CleanAtSlash(s: string, n: nat)
    requires n < |s| && s[n] == '/' && forall k | 0 <= k < n :: s[k] != '/'
    ensures CleanName(s) <==> VaultSegment(s[..n]) && CleanName(s[n + 1..])
  {
    var front, rest := s[..n], s[n + 1..];
    assert s == front + "/" + rest;
    if VaultSegment(front) && CleanName(rest) {
      assert s[n + 1] == rest[0] && s[|s| - 1] == rest[|rest| - 1];
      forall i | 0 <= i < |s| - 1 && s[i] == '/'
        ensures s[i + 1] != '/' && s[i + 1] != '.'
      {
        if i > n { assert rest[i - n - 1] == '/' && rest[i - n] == s[i + 1]; }
      }
    }
    if CleanName(s) {
      assert rest[0] == s[n + 1] && rest[|rest| - 1] == s[|s| - 1];
      forall i | 0 <= i < |rest| - 1 && rest[i] == '/'
        ensures rest[i + 1] != '/' && rest[i + 1] != '.'
      {
        assert s[n + 1 + i] == '/' && s[n + 1 + i + 1] == rest[i + 1];
      }
    }
  }

  /** Which names the path parser accepts. */
  lemma VaultPathOnNames(s: string)
    ensures VaultPath(Split(s)) <==>
              CleanName(s) && !(|s| > 2 && IsLetter(s[0]) && s[1] == ':' && s[2] == '/')
  {
    SegmentsOnNames(s);
    var n := FirstSlash(s);
    assert n < |s| ==> Split(s)[0] == s[..n];
  }

  /** Splitting undoes joining, so a path may be held as its segments. */
  lemma {:induction false} SplitJoin(p: Path)
    requires p != [] && forall i | 0 <= i < |p| :: '/' !in p[i]
    ensures Split(Join(p)) == p
  {
    var s := Join(p);
    var i := FirstSlash(s);
    if |p| == 1 {
      assert i == |s|;
    } else {
      assert s[|p[0]|] == '/';
      assert forall k | 0 <= k < |p[0]| :: s[k] == p[0][k];
      assert i == |p[0]|;
      assert s[..i] == p[0];
      assert s[i + 1..] == Join(p[1..]);
      SplitJoin(p[1..]);
      assert [p[0]] + p[1..] == p;
    }
  }

  /** The source tests `path.startsWith(folder + "/")` on strings; on segments that is the proper-prefix order. */
  lemma {:induction false} StartsWithIsPrefix(d: Path, p: Path)
    requires d != [] && p != []
    requires forall i | 0 <= i < |d| :: '/' !in d[i]
    requires forall i | 0 <= i < |p| :: '/' !in p[i]
    ensures Join(d) + "/" <= Join(p) <==> d < p
  {
    if d < p {
      JoinOfPrefix(d, p);
    }
    if Join(d) + "/" <= Join(p) {
      PrefixOfJoin(d, p);
    }
  }

  lemma {:induction false} JoinOfPrefix(d: Path, p: Path)
    requires d != [] && d < p
    ensures Join(d) + "/" <= Join(p)
  {
    assert d[0] == p[0];
    if |d| > 1 {
      assert d[1..] < p[1..];
      JoinOfPrefix(d[1..], p[1..]);
      assert Join(d) + "/" == d[0] + "/" + (Join(d[1..]) + "/");
    } else {
      assert Join(d) + "/" == d[0] + "/";
    }
  }

  lemma {:induction false} PrefixOfJoin(d: Path, p: Path)
    requires d != [] && p != []
    requires forall i | 0 <= i < |d| :: '/' !in d[i]
    requires forall i | 0 <= i < |p| :: '/' !in p[i]
    requires Join(d) + "/" <= Join(p)
    ensures d < p
  {
    var a, b := Join(d) + "/", Join(p);
    assert a[|d[0]|] == '/';
    assert b[|d[0]|] == '/';
    assert forall k | 0 <= k < |d[0]| :: a[k] == d[0][k];
    assert forall k | 0 <= k < |p[0]| :: b[k] == p[0][k];
    if |p| > 1 {
      assert b[|p[0]|] == '/';
      assert d[0] == a[..|d[0]|] == b[..|d[0]|] == p[0];
      if |d| > 1 {
        assert a[|d[0]| + 1..] == Join(d[1..]) + "/";
        assert b[|p[0]| + 1..] == Join(p[1..]);
        PrefixOfJoin(d[1..], p[1..]);
      }
      assert p == [p[0]] + p[1..] && d == [d[0]] + d[1..];
    }
  }

  // ---- case folding ----

  function LowerChar(c: char): char {
    if 'A' <= c <= 'Z' then c + ' ' else c
  }

  function Lower(s: string): string {
    seq(|s|, i requires 0 <= i < |s| => LowerChar(s[i]))
  }

  /** path.toLowerCase(), segment by segment. */
  function Fold(p: Path): (r: Path)
    ensures |r| == |p|
    ensures p == [] <==> r == []
  {
    seq(|p|, i requires 0 <= i < |p| => Lower(p[i]))
  }

  /** The upper- and the lower-case form of one letter. */
  predicate CasePair(upper: char, lower: char) {
    'A' <= upper <= 'Z' && 'a' <= lower <= 'z' && upper as int - 'A' as int == lower as int - 'a' as int
  }

  predicate SameButForCase(a: string, b: string) {
    |a| == |b| && forall i | 0 <= i < |a| :: a[i] == b[i] || CasePair(a[i], b[i]) || CasePair(b[i], a[i])
  }

  /** Folding identifies exactly the names that are the same letter by letter, but for case. */
  lemma LowerExactly(a: string, b: string)
    ensures Lower(a) == Lower(b) <==> SameButForCase(a, b)
    ensures forall c | c in Lower(a) :: !('A' <= c <= 'Z')
  {
    if Lower(a) == Lower(b) {
      forall i | 0 <= i < |a|
        ensures a[i] == b[i] || CasePair(a[i], b[i]) || CasePair(b[i], a[i])
      {
        assert Lower(a)[i] == Lower(b)[i];
      }
    }
  }

  lemma FoldExactly(p: Path, q: Path)
    ensures Fold(p) == Fold(q) <==> |p| == |q| && forall i | 0 <= i < |p| :: SameButForCase(p[i], q[i])
  {
    forall i | 0 <= i < |p| && i < |q|
      ensures Lower(p[i]) == Lower(q[i]) <==> SameButForCase(p[i], q[i])
    {
      LowerExactly(p[i], q[i]);
    }
    if Fold(p) == Fold(q) {
      forall i | 0 <= i < |p|
        ensures SameButForCase(p[i], q[i])
      {
        assert Fold(p)[i] == Fold(q)[i];
      }
    }
  }

  lemma FoldKeepsPrefix(q: Path, p: Path)
    requires q < p
    ensures Fold(q) < Fold(p)
  {
    assert forall i | 0 <= i < |q| :: q[i] == p[i];
    assert forall i | 0 <= i < |q| :: Fold(q)[i] == Fold(p)[i];
  }
}
