/** A directory tree on a host as the file commands of the host daemon see it, with other
    writers and failures interleaved between any two commands. */
module HostFiles {
  import opened Basics
  import opened Paths

  /** File bytes. Two contents are equal exactly when their SHA-256 digests are: the digest is taken
      as injective, so a content also serves as its own version. */
  type Content = string

  function At(m: map<Path, Content>, p: Path): Option<Content> {
    if p in m then Some(m[p]) else None
  }

  datatype Tree = Tree(files: map<Path, Content>, dirs: set<Path>) {
    function Paths(): set<Path> { files.Keys + dirs }

    /** The version a compare-and-swap sees at p: None when no file is there. */
    function Version(p: Path): Option<Content> {
      At(files, p)
    }

    predicate BeneathFile(p: Path) {
      exists q :: q in files && q < p
    }

    predicate IsEmpty(d: Path) {
      forall q :: q in Paths() ==> !(d < q)
    }

    /** A real directory tree: nothing is both a file and a directory, and every folder above an entry exists. */
    ghost predicate Valid() {
      && [] !in Paths()
      && files.Keys !! dirs
      && forall p, q :: p in Paths() && q in Parents(p) ==> q in dirs
    }
  }

  // ---- one command, run alone ----

  datatype ReadReply = Found(content: Content) | Absent | Unreadable

  datatype Reply = Done | Missing | Conflict(current: Option<Content>) | Failed

  /** What a command did to a path: a write notes the version it expected and the one it replaced. */
  datatype Effect =
    | Replaced(path: Path, expected: Option<Content>, before: Option<Content>)
    | Removed(path: Path, before: Option<Content>)

  datatype Change = Change(tree: Tree, reply: Reply, effects: seq<Effect>)

  function ReadTree(t: Tree, p: Path): ReadReply {
    if p in t.dirs || t.BeneathFile(p) then Unreadable
    else if p in t.files then Found(t.files[p])
    else Absent
  }

  function MkdirTree(t: Tree, d: Path): Change {
    if d in t.files || t.BeneathFile(d) then Change(t, Failed, [])
    else Change(t.(dirs := t.dirs + Parents(d) + (if d == [] then {} else {d})), Done, [])
  }

  function WriteTree(t: Tree, p: Path, content: Content, expected: Option<Content>): Change {
    if p == [] || p in t.dirs || t.BeneathFile(p) then Change(t, Failed, [])
    else if t.Version(p) != expected then Change(t, Conflict(t.Version(p)), [])
    else Change(Tree(t.files[p := content], t.dirs + Parents(p)), Done, [Replaced(p, expected, t.Version(p))])
  }

  /** Non-recursive removal: takes a file of any version, or a directory that is empty. */
  function RemoveTree(t: Tree, p: Path): Change {
    if t.BeneathFile(p) then Change(t, Failed, [])
    else if p in t.files then Change(t.(files := t.files - {p}), Done, [Removed(p, Some(t.files[p]))])
    else if p !in t.dirs then Change(t, Missing, [])
    else if t.IsEmpty(p) then Change(t.(dirs := t.dirs - {p}), Done, [Removed(p, None)])
    else Change(t, Failed, [])
  }

  /** The commands keep a real directory tree. */
  lemma CommandsKeepValid(t: Tree, p: Path, content: Content, expected: Option<Content>)
    requires t.Valid()
    ensures MkdirTree(t, p).tree.Valid()
    ensures WriteTree(t, p, content, expected).tree.Valid()
    ensures RemoveTree(t, p).tree.Valid()
  {
    var made := MkdirTree(t, p).tree;
    forall x, q | x in made.Paths() && q in Parents(x)
      ensures q in made.dirs
    {
      if x !in t.Paths() && x != p {
        assert x < p && q < p;
      }
    }
    var written := WriteTree(t, p, content, expected).tree;
    if p != [] {
      forall x, q | x in written.Paths() && q in Parents(x)
        ensures q in written.dirs
      {
        if x !in t.Paths() && x != p {
          assert x < p && q < p;
        }
      }
      forall x | x in written.dirs && x !in t.dirs
        ensures x !in written.files
      {
        assert x < p;
      }
    }
    var removed := RemoveTree(t, p).tree;
    forall x, q | x in removed.Paths() && q in Parents(x)
      ensures q in removed.dirs
    {
      assert x in t.Paths();
      assert q in t.dirs;
      if q == p {
        assert !t.IsEmpty(p);
      }
    }
  }

  /** The log misses nothing: a command changes no file but the one its effect names, and names its old version. */
  lemma EffectsTellAll(t: Tree, p: Path, content: Content, expected: Option<Content>, q: Path)
    ensures MkdirTree(t, p).tree.files == t.files
    ensures var c := WriteTree(t, p, content, expected);
            c.tree.Version(q) != t.Version(q) ==> q == p && c.effects == [Replaced(p, expected, t.Version(p))]
    ensures var c := RemoveTree(t, p);
            c.tree.Version(q) != t.Version(q) ==> q == p && c.effects == [Removed(p, t.Version(p))]
  {}

  // ---- a command among other writers and failures ----

  /** A failing command may fail before it takes effect, or after (the reply is lost). */
  datatype Fault = Fine | Before | After

  /** What happens around the next command: other writers may leave any tree at all, then the command may fail. */
  datatype Turn = Turn(others: Option<Tree>, fault: Fault)

  /** The tree, the turns still to come (none: undisturbed), and what our own commands have done so far. */
  datatype World = World(tree: Tree, turns: seq<Turn>, log: seq<Effect>)

  datatype Called = Called(world: World, reply: Reply)

  datatype ReadCalled = ReadCalled(world: World, reply: ReadReply)

  function Tick(w: World): World {
    if w.turns == [] then w
    else World(if w.turns[0].others.Some? then w.turns[0].others.value else w.tree, w.turns[1..], w.log)
  }

  function NextFault(w: World): Fault {
    if w.turns == [] then Fine else w.turns[0].fault
  }

  function Settle(now: World, fault: Fault, change: Change): Called {
    match fault
    case Before => Called(now, Failed)
    case After => Called(now.(tree := change.tree, log := now.log + change.effects), Failed)
    case Fine => Called(now.(tree := change.tree, log := now.log + change.effects), change.reply)
  }

  function MkdirCall(w: World, d: Path): Called {
    Settle(Tick(w), NextFault(w), MkdirTree(Tick(w).tree, d))
  }

  function WriteCall(w: World, p: Path, content: Content, expected: Option<Content>): Called {
    Settle(Tick(w), NextFault(w), WriteTree(Tick(w).tree, p, content, expected))
  }

  function RemoveCall(w: World, p: Path): Called {
    Settle(Tick(w), NextFault(w), RemoveTree(Tick(w).tree, p))
  }

  function ReadCall(w: World, p: Path): ReadCalled {
    ReadCalled(Tick(w), if NextFault(w).Fine? then ReadTree(Tick(w).tree, p) else Unreadable)
  }

  datatype ListCalled = ListCalled(world: World, listing: Option<Tree>)

  /** Listing a root: None when the call fails or reports more entries than the limit. */
  function ListCall(w: World): ListCalled {
    ListCalled(Tick(w), if NextFault(w).Fine? then Some(Tick(w).tree) else None)
  }

  /** No other writers in the turns to come; commands may still fail. */
  ghost predicate Alone(w: World) {
    forall i | 0 <= i < |w.turns| :: w.turns[i].others.None?
  }

  /** Without other writers, commands that only read leave the tree as it was. */
  ghost predicate SameAlone(before: World, after: World) {
    Alone(before) ==> Alone(after) && after.tree == before.tree
  }

  /** Nothing was changed by us, and nothing at all when nobody interferes. */
  ghost predicate OnlyRead(before: World, after: World) {
    after.log == before.log && (before.turns == [] ==> after == before) && SameAlone(before, after)
  }

  /** A failed write leaves open whether the file was written: both can be behind the same reply. */
  lemma FailureLeavesOpen(t: Tree, p: Path, content: Content)
    requires WriteTree(t, p, content, t.Version(p)).reply.Done?
    ensures exists v: World, w: World ::
              && v.tree == w.tree == t && Alone(v) && Alone(w)
              && WriteCall(v, p, content, t.Version(p)).reply == WriteCall(w, p, content, t.Version(p)).reply == Failed
              && WriteCall(v, p, content, t.Version(p)).world.tree == t
              && WriteCall(w, p, content, t.Version(p)).world.tree.Version(p) == Some(content)
  {
    var v, w := World(t, [Turn(None, Before)], []), World(t, [Turn(None, After)], []);
    assert WriteCall(v, p, content, t.Version(p)).world.tree == t;
    assert WriteCall(w, p, content, t.Version(p)).world.tree.Version(p) == Some(content);
  }

  // ---- the same commands on a mutable host ----

  class Host {
    var tree: Tree
    var turns: seq<Turn>
    var log: seq<Effect>

    constructor (tree: Tree, turns: seq<Turn>)
      ensures Now() == World(tree, turns, [])
    {
      this.tree, this.turns, this.log := tree, turns, [];
    }

    function Now(): World
      reads this
    {
      World(tree, turns, log)
    }

    method Mkdir(d: Path) returns (reply: Reply)
      modifies this
      ensures Called(Now(), reply) == MkdirCall(old(Now()), d)
    {
      var fault := Others();
      if d in tree.files || tree.BeneathFile(d) { return Failed; }
      if fault.Before? { return Failed; }
      tree := tree.(dirs := tree.dirs + Parents(d) + (if d == [] then {} else {d}));
      reply := if fault.After? then Failed else Done;
    }

    method Write(p: Path, content: Content, expected: Option<Content>) returns (reply: Reply)
      modifies this
      ensures Called(Now(), reply) == WriteCall(old(Now()), p, content, expected)
    {
      var fault := Others();
      if fault.Before? || p == [] || p in tree.dirs || tree.BeneathFile(p) { return Failed; }
      var current := tree.Version(p);
      if current != expected {
        return if fault.After? then Failed else Conflict(current);
      }
      tree := Tree(tree.files[p := content], tree.dirs + Parents(p));
      log := log + [Replaced(p, expected, current)];
      reply := if fault.After? then Failed else Done;
    }

    method Remove(p: Path) returns (reply: Reply)
      modifies this
      ensures Called(Now(), reply) == RemoveCall(old(Now()), p)
    {
      var fault := Others();
      if fault.Before? || tree.BeneathFile(p) { return Failed; }
      if p in tree.files {
        log := log + [Removed(p, Some(tree.files[p]))];
        tree := tree.(files := tree.files - {p});
      } else if p !in tree.dirs {
        return if fault.After? then Failed else Missing;
      } else if tree.IsEmpty(p) {
        log := log + [Removed(p, None)];
        tree := tree.(dirs := tree.dirs - {p});
      } else {
        return Failed;
      }
      reply := if fault.After? then Failed else Done;
    }

    method Read(p: Path) returns (reply: ReadReply)
      modifies this
      ensures ReadCalled(Now(), reply) == ReadCall(old(Now()), p)
    {
      var fault := Others();
      reply := if fault.Fine? then ReadTree(tree, p) else Unreadable;
    }

    method List() returns (listing: Option<Tree>)
      modifies this
      ensures ListCalled(Now(), listing) == ListCall(old(Now()))
    {
      var fault := Others();
      listing := if fault.Fine? then Some(tree) else None;
    }

    /** Lets the other writers act before our next command. */
    method Others() returns (fault: Fault)
      modifies this
      ensures fault == NextFault(old(Now())) && Now() == Tick(old(Now()))
    {
      if turns == [] { return Fine; }
      fault := turns[0].fault;
      if turns[0].others.Some? { tree := turns[0].others.value; }
      turns := turns[1..];
    }
  }
}
