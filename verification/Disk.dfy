/** The part of the file system a rollback works on.  A disk takes one atomic step at a time and
    stops for good when its budget of steps is used up: a run with budget n is a run that crashes
    after n steps. */
module Disk {
  import opened Octets

  type Rel = seq<string>

  /** A directory entry; `Other` stands for links, devices, pipes and sockets. */
  datatype Node = Dir | File(bytes: seq<byte>, mode: nat) | Other

  /** A directory with all below it, by path relative to it; the directory itself is at []. */
  type Tree = map<Rel, Node>

  datatype Place = Data | FailedData | Restore | Replaced | Release(version: string)

  predicate WellFormed(t: Tree) {
    && (t != map[] ==> [] in t)
    && (forall r :: r in t && r != [] ==> r[..|r| - 1] in t && t[r[..|r| - 1]].Dir?)
  }

  predicate Leaf(t: Tree, r: Rel) {
    r in t && forall q :: q in t && r <= q ==> q == r
  }

  lemma {:induction false} SomeLeafBelow(t: Tree, r: Rel) returns (leaf: Rel)
    requires r in t
    ensures Leaf(t, leaf)
    decreases |(set q | q in t && |q| > |r|)|
  {
    if !Leaf(t, r) {
      var q :| q in t && r <= q && q != r;
      assert |q| > |r|;
      var s, s' := set p | p in t && |p| > |r|, set p | p in t && |p| > |q|;
      assert s' <= s && q in s && q !in s';
      Smaller(s', s, q);
      leaf := SomeLeafBelow(t, q);
    } else {
      leaf := r;
    }
  }

  lemma Smaller(a: set<Rel>, b: set<Rel>, x: Rel)
    requires a <= b && x in b && x !in a
    ensures |a| < |b|
  {
    assert a <= b - {x};
    Subset(a, b - {x});
  }

  lemma {:induction false} Subset(a: set<Rel>, b: set<Rel>)
    requires a <= b
    ensures |a| <= |b|
  {
    if a != {} {
      var x :| x in a;
      Subset(a - {x}, b - {x});
    }
  }

  lemma {:induction false} PrefixIn(t: Tree, r: Rel, k: nat)
    requires WellFormed(t) && r in t && k < |r|
    ensures r[..k] in t && t[r[..k]].Dir?
    decreases |r|
  {
    if k < |r| - 1 {
      PrefixIn(t, r[..|r| - 1], k);
      assert r[..|r| - 1][..k] == r[..k];
    }
  }

  // ---------------------------------------------------------------- copies of trees

  /** What lies at or below `at`, moved to `to`. */
  function Graft(to: Rel, t: Tree, at: Rel): Tree {
    map p | p in (set r | r in t && at <= r :: to + r[|at|..]) :: Moved(to, t, at, p)
  }

  function Moved(to: Rel, t: Tree, at: Rel, p: Rel): Node {
    if |to| <= |p| && at + p[|to|..] in t then t[at + p[|to|..]] else Dir
  }

  lemma GraftHas(to: Rel, t: Tree, at: Rel, p: Rel)
    ensures p in Graft(to, t, at) <==> to <= p && at + p[|to|..] in t
    ensures p in Graft(to, t, at) ==> Graft(to, t, at)[p] == t[at + p[|to|..]]
  {
    if to <= p && at + p[|to|..] in t {
      var r := at + p[|to|..];
      assert at <= r && to + r[|at|..] == p;
    }
    if p in Graft(to, t, at) {
      var r :| r in t && at <= r && p == to + r[|at|..];
      assert at + p[|to|..] == r;
    }
  }

  /** The children of a directory. */
  function Children(t: Tree, at: Rel): set<string> {
    set r | r in t && |r| == |at| + 1 && at <= r :: r[|at|]
  }

  /** Copying the children in `names`, on top of making the directory. */
  function Partly(d: Tree, to: Rel, t: Tree, at: Rel, names: set<string>): Tree {
    d[to := Dir] + map p | p in Graft(to, t, at) && |p| > |to| && p[|to|] in names :: Graft(to, t, at)[p]
  }

  lemma NoChildYet(d: Tree, to: Rel, t: Tree, at: Rel)
    ensures Partly(d, to, t, at, {}) == d[to := Dir]
  {
  }

  lemma AllChildren(d: Tree, to: Rel, t: Tree, at: Rel)
    requires at in t && t[at].Dir? && WellFormed(t)
    ensures Partly(d, to, t, at, Children(t, at)) == d + Graft(to, t, at)
  {
    hide Graft, Children, WellFormed;
    var g := Graft(to, t, at);
    GraftHas(to, t, at, to);
    assert at + to[|to|..] == at;
    forall p | p in g && p != to
      ensures |p| > |to| && p[|to|] in Children(t, at)
    {
      GraftHas(to, t, at, p);
      var r := at + p[|to|..];
      assert |p| > |to| && r[|at|] == p[|to|];
      ChildOnTheWay(t, at, r);
    }
  }

  /** Below a directory, the first name on the way to any entry is a child. */
  lemma ChildOnTheWay(t: Tree, at: Rel, r: Rel)
    requires WellFormed(t) && r in t && at <= r && r != at
    ensures r[|at|] in Children(t, at) && at + [r[|at|]] in t
    ensures |r| > |at| + 1 ==> t[at + [r[|at|]]].Dir?
  {
    var c := r[..|at| + 1];
    assert c == at + [r[|at|]];
    if |r| > |at| + 1 {
      PrefixIn(t, r, |at| + 1);
    } else {
      assert c == r;
    }
  }

  lemma PartlyHas(d: Tree, to: Rel, t: Tree, at: Rel, names: set<string>, p: Rel)
    ensures var a := Partly(d, to, t, at, names);
            if p in Graft(to, t, at) && |p| > |to| && p[|to|] in names
            then p in a && a[p] == Graft(to, t, at)[p]
            else (p in a <==> p in d[to := Dir]) && (p in a ==> a[p] == d[to := Dir][p])
  {
    hide Graft;
  }

  /** What lies below a child lies below its parent, under that name. */
  lemma GraftOfChild(to: Rel, t: Tree, at: Rel, n: string, p: Rel)
    ensures p in Graft(to + [n], t, at + [n])
            <==> p in Graft(to, t, at) && |p| > |to| && p[|to|] == n
    ensures p in Graft(to + [n], t, at + [n]) ==> Graft(to + [n], t, at + [n])[p] == Graft(to, t, at)[p]
  {
    GraftHas(to, t, at, p);
    GraftHas(to + [n], t, at + [n], p);
    hide Graft;
    if to <= p && |p| > |to| && p[|to|] == n {
      assert at + p[|to|..] == at + [n] + p[|to| + 1..];
      assert to + [n] <= p;
    }
  }

  /** One more child: the graft of that child is added. */
  lemma OneMoreChild(d: Tree, to: Rel, t: Tree, at: Rel, names: set<string>, n: string)
    ensures Partly(d, to, t, at, names + {n}) == Partly(d, to, t, at, names) + Graft(to + [n], t, at + [n])
  {
    hide Graft, Partly;
    var a, b := Partly(d, to, t, at, names + {n}), Partly(d, to, t, at, names) + Graft(to + [n], t, at + [n]);
    forall p
      ensures p in a <==> p in b
      ensures p in a ==> a[p] == b[p]
    {
      PartlyHas(d, to, t, at, names, p);
      PartlyHas(d, to, t, at, names + {n}, p);
      GraftOfChild(to, t, at, n, p);
    }
  }

  /** A child that is no directory is grafted as one entry. */
  lemma PlainChild(to: Rel, t: Tree, at: Rel)
    requires WellFormed(t) && at in t && !t[at].Dir?
    ensures Graft(to, t, at) == map[to := t[at]]
  {
    var g := Graft(to, t, at);
    forall p
      ensures p in g <==> p == to
      ensures p in g ==> g[p] == t[at]
    {
      GraftHas(to, t, at, p);
      if p in g && p != to {
        var r := at + p[|to|..];
        assert r[..|at|] == at;
        PrefixIn(t, r, |at|);
      } else if p == to {
        assert at + p[|to|..] == at;
      }
    }
  }

  // ---------------------------------------------------------------- steps

  function TreeAt(trees: map<Place, Tree>, p: Place): Tree {
    if p in trees then trees[p] else map[]
  }

  predicate IsDir(t: Tree, r: Rel) {
    r in t && t[r].Dir?
  }

  predicate IsFile(t: Tree, r: Rel) {
    r in t && t[r].File?
  }

  /** Nothing changed but what is at one place. */
  predicate OnlyAt(before: map<Place, Tree>, after: map<Place, Tree>, p: Place) {
    before - {p} == after - {p}
  }

  lemma OnlyAtElsewhere(before: map<Place, Tree>, after: map<Place, Tree>, p: Place, q: Place)
    requires OnlyAt(before, after, p) && q != p
    ensures q in before <==> q in after
    ensures q in before ==> after[q] == before[q]
  {
    assert q in before - {p} <==> q in before;
    assert q in after - {p} <==> q in after;
    assert q in before ==> (before - {p})[q] == before[q];
    assert q in after ==> (after - {p})[q] == after[q];
  }

  /** A directory entry, and at most it, is set. */
  function Put(trees: map<Place, Tree>, p: Place, r: Rel, n: Node): map<Place, Tree> {
    trees[p := TreeAt(trees, p)[r := n]]
  }

  lemma PutOnlyAt(trees: map<Place, Tree>, p: Place, r: Rel, n: Node)
    ensures OnlyAt(trees, Put(trees, p, r, n), p)
  {
    var a, b := trees - {p}, Put(trees, p, r, n) - {p};
    assert a.Keys == b.Keys;
    assert forall q :: q in a ==> a[q] == b[q];
  }

  lemma PutTwice(trees: map<Place, Tree>, p: Place, r: Rel, m: Node, n: Node)
    ensures Put(Put(trees, p, r, m), p, r, n) == Put(trees, p, r, n)
  {
    var t := TreeAt(trees, p);
    assert t[r := m][r := n] == t[r := n];
  }

  /** When nothing but a crash keeps a step from succeeding. */
  predicate MayMake(t: Tree, r: Rel) {
    IsDir(t, r) || (r !in t && (r == [] || IsDir(t, r[..|r| - 1])))
  }

  predicate MayWrite(t: Tree, r: Rel) {
    (r in t ==> t[r].File?) && r != [] && IsDir(t, r[..|r| - 1])
  }

  /** A directory of files and directories, and a free name for it. */
  ghost predicate MayCopy(t: Tree, at: Rel, d: Tree, target: Rel) {
    && IsDir(t, at) && (forall r :: r in t ==> !t[r].Other?)
    && target != [] && IsDir(d, target[..|target| - 1])
    && (forall p :: p in d ==> !(target <= p))
  }

  ghost predicate ChildOk(t: Tree, child: Rel, d: Tree, target: Rel)
    requires child in t
  {
    match t[child]
    case Dir => MayCopy(t, child, d, target)
    case File(_, _) => MayWrite(d, target)
    case Other => false
  }

  lemma CopyStarts(t: Tree, at: Rel, d: Tree, target: Rel)
    ensures MayCopy(t, at, d, target) ==> IsDir(t, at) && MayMake(d, target)
  {
  }

  /** If a directory may be copied, so may each child in its turn. */
  lemma ChildMayCopy(d: Tree, to: Rel, t: Tree, at: Rel, done: set<string>, n: string)
    requires n !in done && at + [n] in t
    ensures MayCopy(t, at, d, to) ==> ChildOk(t, at + [n], Partly(d, to, t, at, done), to + [n])
  {
    hide Partly, Graft;
    if MayCopy(t, at, d, to) {
      var d' := Partly(d, to, t, at, done);
      assert (to + [n])[..|to|] == to;
      PartlyHas(d, to, t, at, done, to);
      forall p | p in d'
        ensures !(to + [n] <= p)
      {
        PartlyHas(d, to, t, at, done, p);
      }
      assert to + [n] <= to + [n];
    }
  }

  class FileSystem {
    var trees: map<Place, Tree>
    var budget: nat

    constructor (trees: map<Place, Tree>, budget: nat)
      ensures this.trees == trees && this.budget == budget
    {
      this.trees, this.budget := trees, budget;
    }

    method Tick() returns (ok: bool)
      modifies this`budget
      ensures ok <==> old(budget) > 0
      ensures budget == if ok then old(budget) - 1 else 0
    {
      ok := budget > 0;
      if ok {
        budget := budget - 1;
      }
    }

    /** `create_dir_all`, the parent being there. */
    method MakeDir(p: Place, r: Rel) returns (ok: bool)
      modifies this
      ensures OnlyAt(old(trees), trees, p) && budget <= old(budget)
      ensures ok ==> trees == Put(old(trees), p, r, Dir)
      ensures !ok ==> trees == old(trees) && (budget == 0 || !MayMake(TreeAt(old(trees), p), r))
    {
      var t := TreeAt(trees, p);
      if IsDir(t, r) {
        assert t[r := Dir] == t;
        return true;
      }
      if r in t || (r != [] && !IsDir(t, r[..|r| - 1])) {
        return false;
      }
      ok := Tick();
      if ok {
        PutOnlyAt(trees, p, r, Dir);
        trees := Put(trees, p, r, Dir);
      }
    }

    /** Create or truncate a file and write it piece by piece: a crash may leave any prefix. */
    method WriteFile(p: Place, r: Rel, bytes: seq<byte>, mode: nat) returns (ok: bool)
      modifies this
      ensures OnlyAt(old(trees), trees, p) && budget <= old(budget)
      ensures ok ==> trees == Put(old(trees), p, r, File(bytes, mode))
      ensures !ok ==> budget == 0 || !MayWrite(TreeAt(old(trees), p), r)
    {
      var t := TreeAt(trees, p);
      if (r in t && !t[r].File?) || (r == [] || !IsDir(t, r[..|r| - 1])) {
        return false;
      }
      ok := Tick();
      if !ok {
        return;
      }
      ghost var before := trees;
      trees := Put(trees, p, r, File([], mode));
      PutOnlyAt(before, p, r, File([], mode));
      var n := 0;
      while n < |bytes|
        invariant n <= |bytes| && trees == Put(before, p, r, File(bytes[..n], mode)) && budget <= old(budget)
      {
        PutOnlyAt(before, p, r, File(bytes[..n], mode));
        ok := Tick();
        if !ok {
          return;
        }
        var m: nat :| n < m <= |bytes|;
        n := m;
        PutTwice(before, p, r, trees[p][r], File(bytes[..n], mode));
        trees := Put(trees, p, r, File(bytes[..n], mode));
        assert trees == Put(before, p, r, File(bytes[..n], mode));
      }
      assert bytes[..n] == bytes;
      PutOnlyAt(before, p, r, File(bytes, mode));
      return true;
    }

    method SetMode(p: Place, r: Rel, mode: nat) returns (ok: bool)
      modifies this
      ensures OnlyAt(old(trees), trees, p) && budget <= old(budget)
      ensures ok ==> && IsFile(TreeAt(old(trees), p), r)
                     && trees == Put(old(trees), p, r, TreeAt(old(trees), p)[r].(mode := mode))
      ensures !ok ==> trees == old(trees) && (budget == 0 || !IsFile(TreeAt(trees, p), r))
    {
      var t := TreeAt(trees, p);
      if !IsFile(t, r) {
        return false;
      }
      ok := Tick();
      if ok {
        PutOnlyAt(trees, p, r, t[r].(mode := mode));
        trees := Put(trees, p, r, t[r].(mode := mode));
      }
    }

    /** `write_file_atomic`: write a temporary file beside the target, then rename it. */
    method WriteFileAtomic(p: Place, tmp: Rel, r: Rel, bytes: seq<byte>, mode: nat) returns (ok: bool)
      requires tmp != r
      modifies this
      ensures OnlyAt(old(trees), trees, p) && budget <= old(budget)
      ensures ok ==> trees == old(trees)[p := (TreeAt(old(trees), p) - {tmp})[r := File(bytes, mode)]]
      ensures !ok ==> || budget == 0 || !MayWrite(TreeAt(old(trees), p), tmp)
                      || !MayWrite(TreeAt(old(trees), p), r)
    {
      ok := WriteFile(p, tmp, bytes, mode);
      if !ok {
        return;
      }
      ghost var t := TreeAt(old(trees), p);
      var t1 := trees[p];
      if r in t1 && !t1[r].File? {
        return false;
      }
      ok := Tick();
      if ok {
        trees := trees[p := (t1 - {tmp})[r := File(bytes, mode)]];
        assert t1 - {tmp} == t - {tmp};
        assert trees - {p} == old(trees) - {p};
      }
    }

    /** `remove_dir_all`: entry by entry, in any order that leaves no entry without its directory. */
    method RemoveAll(p: Place) returns (ok: bool)
      modifies this
      ensures OnlyAt(old(trees), trees, p) && budget <= old(budget)
      ensures ok ==> trees == old(trees) - {p}
      ensures !ok ==> budget == 0
    {
      while p in trees && trees[p] != map[]
        invariant OnlyAt(old(trees), trees, p) && budget <= old(budget)
        decreases if p in trees then |trees[p]| else 0
      {
        ok := Tick();
        if !ok {
          return;
        }
        ghost var r0 :| r0 in trees[p];
        ghost var leaf0 := SomeLeafBelow(trees[p], r0);
        var leaf :| leaf in trees[p] && Leaf(trees[p], leaf);
        ghost var t := trees[p];
        assert (t - {leaf}).Keys == t.Keys - {leaf};
        assert |t - {leaf}| == |(t - {leaf}).Keys| && |t| == |t.Keys|;
        trees := trees[p := trees[p] - {leaf}];
        assert trees - {p} == old(trees) - {p};
      }
      trees := trees - {p};
      return true;
    }

    /** Rename a directory onto a name that is free, or taken by an empty directory. */
    method Rename(from: Place, to: Place) returns (ok: bool)
      requires from != to
      modifies this
      ensures budget <= old(budget)
      ensures ok ==> from in old(trees) && trees == (old(trees) - {from})[to := old(trees)[from]]
      ensures !ok ==> trees == old(trees) && (budget == 0 || from !in trees || to in trees)
    {
      if from !in trees || !(to in trees ==> trees[to] == map[[] := Dir]) {
        return false;
      }
      ok := Tick();
      if ok {
        trees := (trees - {from})[to := trees[from]];
      }
    }

    /** `copy_tree_into`, children in any order; anything but files and directories fails it. */
    method CopyTree(from: Place, at: Rel, to: Place, target: Rel) returns (ok: bool)
      requires from != to && WellFormed(TreeAt(trees, from))
      modifies this
      ensures OnlyAt(old(trees), trees, to) && budget <= old(budget)
      ensures ok ==> to in trees
                     && trees[to] == TreeAt(old(trees), to) + Graft(target, TreeAt(old(trees), from), at)
      ensures !ok ==> budget == 0 || !MayCopy(TreeAt(old(trees), from), at, TreeAt(old(trees), to), target)
      decreases Size(TreeAt(trees, from), at), 0
    {
      hide Graft, Partly, Children, WellFormed, MayCopy, Size;
      var t := TreeAt(trees, from);
      ghost var d := TreeAt(trees, to);
      CopyStarts(t, at, d, target);
      if !IsDir(t, at) {
        return false;
      }
      ok := MakeDir(to, target);
      if !ok {
        return;
      }
      NoChildYet(d, target, t, at);
      var rest := Children(t, at);
      assert Children(t, at) - rest == {};
      while rest != {}
        invariant rest <= Children(t, at)
        invariant OnlyAt(old(trees), trees, to) && to in trees && budget <= old(budget)
        invariant trees[to] == Partly(d, target, t, at, Children(t, at) - rest)
        decreases rest
      {
        var n :| n in rest;
        ghost var done := Children(t, at) - rest;
        OnlyAtElsewhere(old(trees), trees, to, from);
        ChildIsThere(t, at, n);
        SizeOfChild(t, at, n);
        ChildMayCopy(d, target, t, at, done, n);
        OneMoreChild(d, target, t, at, done, n);
        assert Children(t, at) - (rest - {n}) == done + {n};
        ok := CopyChild(from, at + [n], to, target + [n]);
        if !ok {
          return;
        }
        rest := rest - {n};
      }
      AllChildren(d, target, t, at);
      assert Children(t, at) - {} == Children(t, at);
      return true;
    }

    /** One entry of the directory walk. */
    method CopyChild(from: Place, child: Rel, to: Place, target: Rel) returns (ok: bool)
      requires from != to && WellFormed(TreeAt(trees, from)) && child in TreeAt(trees, from)
      modifies this
      ensures OnlyAt(old(trees), trees, to) && budget <= old(budget)
      ensures ok ==> to in trees
                     && trees[to] == TreeAt(old(trees), to) + Graft(target, TreeAt(old(trees), from), child)
      ensures !ok ==> budget == 0 || !ChildOk(TreeAt(old(trees), from), child, TreeAt(old(trees), to), target)
      decreases Size(TreeAt(trees, from), child), 1
    {
      hide Graft, WellFormed, MayCopy, Size;
      var t := TreeAt(trees, from);
      match t[child]
      case Dir => ok := CopyTree(from, child, to, target);
      case File(bytes, mode) =>
        PlainChild(target, t, child);
        ok := WriteFile(to, target, bytes, mode);
      case Other => ok := false;
    }
  }

  lemma ChildIsThere(t: Tree, at: Rel, n: string)
    requires n in Children(t, at)
    ensures at + [n] in t
  {
    var r :| r in t && |r| == |at| + 1 && at <= r && r[|at|] == n;
    assert r == at + [n];
  }

  /** The number of entries at or below a path. */
  ghost function Size(t: Tree, at: Rel): nat {
    |set r | r in t && at <= r|
  }

  lemma SizeOfChild(t: Tree, at: Rel, n: string)
    requires at in t
    ensures Size(t, at + [n]) < Size(t, at)
  {
    var a, b := set r | r in t && at + [n] <= r, set r | r in t && at <= r;
    forall r | r in a
      ensures r in b
    {
      assert at <= at + [n];
    }
    assert !(at + [n] <= at);
    Smaller(a, b, at);
  }
}
