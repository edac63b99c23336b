/** The loops that find a free name by counting: for a new note's path and for a new vault's id. */
module Names {
  import opened Basics
  import opened Paths

  function Digit(d: nat): char
    requires d < 10
  {
    '0' + d as char
  }

  /** String(n) for a counter. */
  function Decimal(n: nat): (s: string)
    ensures s != "" && forall i | 0 <= i < |s| :: '0' <= s[i] <= '9'
  {
    if n < 10 then [Digit(n)] else Decimal(n / 10) + [Digit(n % 10)]
  }

  /** What a reader makes of a string of digits. */
  function Reading(s: string): int {
    if s == "" then 0 else 10 * Reading(s[..|s| - 1]) + (s[|s| - 1] as int - '0' as int)
  }

  /** A counter is written so that it reads as itself, without a leading zero. */
  lemma {:induction false} DecimalReads(n: nat)
    ensures Reading(Decimal(n)) == n
    ensures n > 0 ==> Decimal(n)[0] != '0'
  {
    if n < 10 {
      assert Decimal(n)[..0] == "";
    } else {
      DecimalReads(n / 10);
      var s := Decimal(n);
      assert s[..|s| - 1] == Decimal(n / 10) && s[|s| - 1] == Digit(n % 10);
    }
  }

  /** The k-th candidate: the plain name first, then the name with a counter from 2 on. */
  datatype Scheme = Scheme(stem: string, joint: string, suffix: string) {
    function Name(k: nat): string {
      stem + (if k <= 1 then "" else joint + Decimal(k)) + suffix
    }
  }

  lemma NamesDiffer(s: Scheme, i: nat, j: nat)
    requires 1 <= i < j
    ensures s.Name(i) != s.Name(j)
  {
    var a, b := s.Name(i), s.Name(j);
    assert i <= 1 ==> |a| < |b|;
    if a == b && i > 1 {
      var from := |s.stem| + |s.joint|;
      assert b[from..|b| - |s.suffix|] == Decimal(j);
      assert a[from..|a| - |s.suffix|] == Decimal(i);
      DecimalReads(i);
      DecimalReads(j);
    }
  }

  lemma LowerConcat(a: string, b: string)
    ensures Lower(a + b) == Lower(a) + Lower(b)
  {}

  function LowerScheme(s: Scheme): Scheme {
    Scheme(Lower(s.stem), Lower(s.joint), Lower(s.suffix))
  }

  /** Lower-casing a candidate leaves its counter alone. */
  lemma LowerName(s: Scheme, k: nat)
    ensures Lower(s.Name(k)) == LowerScheme(s).Name(k)
  {
    var middle := if k <= 1 then "" else s.joint + Decimal(k);
    LowerConcat(s.stem + middle, s.suffix);
    LowerConcat(s.stem, middle);
    LowerConcat(s.joint, Decimal(k));
    assert Lower(Decimal(k)) == Decimal(k);
  }

  /** The candidates before k, as taken names. */
  function Tried(s: Scheme, k: nat): set<string> {
    set i | 1 <= i < k :: s.Name(i)
  }

  lemma {:induction false} TriedCount(s: Scheme, k: nat)
    requires k >= 1
    ensures |Tried(s, k)| == k - 1
  {
    if k == 1 {
      assert Tried(s, k) == {};
    } else {
      TriedCount(s, k - 1);
      LastIsNew(s, k);
    }
  }

  lemma LastIsNew(s: Scheme, k: nat)
    requires k >= 2
    ensures Tried(s, k) == Tried(s, k - 1) + {s.Name(k - 1)} && s.Name(k - 1) !in Tried(s, k - 1)
  {
    forall i | 1 <= i < k - 1
      ensures s.Name(i) != s.Name(k - 1)
    {
      NamesDiffer(s, i, k - 1);
    }
  }

  /** Pigeonhole: as long as every candidate tried was taken, there are at most as many as taken names. */
  lemma TriedAreBounded(s: Scheme, taken: set<string>, k: nat)
    requires k >= 1 && Tried(s, k) <= taken
    ensures k <= |taken| + 1
  {
    TriedCount(s, k);
    SubsetSize(Tried(s, k), taken);
  }

  lemma {:induction false} SubsetSize(a: set<string>, b: set<string>)
    requires a <= b
    ensures |a| <= |b|
    decreases |a|
  {
    if a == {} {
    } else {
      var x :| x in a;
      SubsetSize(a - {x}, b - {x});
    }
  }

  /** k is the first candidate not taken, and it is found after at most one more try than there are taken names. */
  ghost predicate IsFirstFree(s: Scheme, taken: set<string>, k: nat) {
    && 1 <= k <= |taken| + 1
    && s.Name(k) !in taken
    && forall i | 1 <= i < k :: s.Name(i) in taken
  }

  function NoteScheme(parent: Option<string>, base: string): Scheme {
    Scheme((if parent.Some? then parent.value + "/" else "") + base, " ", ".md")
  }

  /** The candidates for a note: its name as it is, then with a space and a counter before the extension. */
  lemma NoteCandidates(parent: Option<string>, base: string, k: nat)
    requires k >= 1
    ensures var name := base + (if k == 1 then "" else " " + Decimal(k)) + ".md";
            NoteScheme(parent, base).Name(k) == if parent.Some? then parent.value + "/" + name else name
  {
    var counter := if k == 1 then "" else " " + Decimal(k);
    if parent.Some? {
      assert parent.value + "/" + base + counter + ".md" == parent.value + "/" + (base + counter + ".md");
    } else {
      assert "" + base == base;
    }
  }

  /** createNote: names are compared without regard to case. */
  method NotePath(parent: Option<string>, base: string, entries: set<string>) returns (path: string)
    ensures var taken := set e | e in entries :: Lower(e);
            exists k :: IsFirstFree(LowerScheme(NoteScheme(parent, base)), taken, k) &&
                path == NoteScheme(parent, base).Name(k)
    ensures forall e | e in entries :: Lower(e) != Lower(path)
  {
    var existing := set e | e in entries :: Lower(e);
    var scheme := NoteScheme(parent, base);
    ghost var folded := LowerScheme(scheme);
    path := scheme.stem + scheme.suffix;
    var counter := 2;
    assert path == scheme.Name(1) by { assert scheme.stem + "" == scheme.stem; }
    LowerName(scheme, 1);
    while Lower(path) in existing
      invariant counter >= 2 && path == scheme.Name(counter - 1) && Lower(path) == folded.Name(counter - 1)
      invariant Tried(folded, counter - 1) <= existing
      decreases |existing| + 2 - counter
    {
      assert Tried(folded, counter) <= existing;
      TriedAreBounded(folded, existing, counter);
      path := scheme.stem + scheme.joint + Decimal(counter) + scheme.suffix;
      assert path == scheme.Name(counter) by {
        assert scheme.stem + (scheme.joint + Decimal(counter)) == scheme.stem + scheme.joint + Decimal(counter);
      }
      LowerName(scheme, counter);
      counter := counter + 1;
    }
    TriedAreBounded(folded, existing, counter - 1);
    assert forall i | 1 <= i < counter - 1 :: folded.Name(i) in Tried(folded, counter - 1);
    assert IsFirstFree(folded, existing, counter - 1);
  }

  /** createVault: ids are compared as they are. */
  method VaultId(baseId: string, ids: set<string>) returns (id: string)
    ensures exists k :: IsFirstFree(Scheme(baseId, "-", ""), ids, k) && id == Scheme(baseId, "-", "").Name(k)
  {
    ghost var scheme := Scheme(baseId, "-", "");
    id := baseId;
    var counter := 2;
    assert id == scheme.Name(1);
    while id in ids
      invariant counter >= 2 && id == scheme.Name(counter - 1)
      invariant Tried(scheme, counter - 1) <= ids
      decreases |ids| + 2 - counter
    {
      assert Tried(scheme, counter) <= ids;
      TriedAreBounded(scheme, ids, counter);
      id := baseId + "-" + Decimal(counter);
      assert id == scheme.Name(counter);
      counter := counter + 1;
    }
    TriedAreBounded(scheme, ids, counter - 1);
    assert forall i | 1 <= i < counter - 1 :: scheme.Name(i) in Tried(scheme, counter - 1);
    assert IsFirstFree(scheme, ids, counter - 1);
  }
}
