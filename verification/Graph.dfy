// The object graph held in a semi-space: which objects lie where, which of
// them a set of root terms keeps alive, and which tree a term stands for.
module Graph {
  import opened Term

  // A cons cell has no header; a tuple has one header word before its elements.
  datatype Obj = Pair | Tuple(arity: nat) {
    function Size(): (n: nat) ensures n >= 1 { if Pair? then 2 else 1 + arity }

    // A forwarding pointer takes two words, even in a one-word object.
    function Span(): (n: nat) ensures n >= 2 && n >= Size() { if Size() < 2 then 2 else Size() }
  }

  // Start offset to object.
  type Objects = map<nat, Obj>

  // A word a register or a field may hold.
  ghost predicate ValidTerm(objs: Objects, w: Word) {
    || w == 0
    || IsImmediate(w)
    || (IsBoxed(w) && Offset(w) in objs && objs[Offset(w)].Tuple?)
    || (IsCons(w) && Offset(w) in objs && objs[Offset(w)].Pair?)
  }

  // k is one of the term-carrying words of the object at o.
  ghost predicate IsField(objs: Objects, o: nat, k: nat) {
    o in objs && (if objs[o].Pair? then o <= k < o + 2 else o < k < o + objs[o].Size())
  }

  ghost predicate BelowAt(hp: nat, objs: Objects, o: nat) { o in objs ==> o + objs[o].Size() <= hp }

  ghost predicate ApartAt(objs: Objects, o: nat, k: nat) {
    o in objs && k in objs && o < k ==> o + objs[o].Size() <= k
  }

  // The objects lie below hp and do not overlap.
  ghost predicate Apart(hp: nat, objs: Objects) {
    (forall o: nat :: BelowAt(hp, objs, o)) && (forall o: nat, k: nat :: ApartAt(objs, o, k))
  }

  ghost predicate HasHeader(words: seq<Word>, objs: Objects, o: nat) {
    o in objs && objs[o].Tuple? ==>
      objs[o].arity <= 0xFFFF && o < |words| && words[o] == TupleHeader(objs[o].arity)
  }

  // objs describes the objects in the first hp words: they are apart, tuples
  // carry their header, and every field is a valid term.
  ghost predicate Layout(words: seq<Word>, hp: nat, objs: Objects) {
    && hp <= |words|
    && Apart(hp, objs)
    && (forall o: nat :: HasHeader(words, objs, o))
    && (forall o: nat, k: nat :: IsField(objs, o, k) ==> k < |words| && ValidTerm(objs, words[k]))
  }

  // ---- liveness ----

  ghost predicate Targets(w: Word, s: set<nat>) { IsPointer(w) ==> Offset(w) in s }

  // s holds every object the roots point to and everything its members point to.
  ghost predicate Closed(words: seq<Word>, objs: Objects, roots: seq<Word>, s: set<nat>) {
    && s <= objs.Keys
    && (forall i :: 0 <= i < |roots| ==> Targets(roots[i], s))
    && (forall o: nat, k: nat :: o in s && IsField(objs, o, k) ==> k < |words| && Targets(words[k], s))
  }

  ghost predicate IsLive(words: seq<Word>, objs: Objects, roots: seq<Word>, o: nat) {
    forall s :: Closed(words, objs, roots, s) ==> o in s
  }

  // The objects that belong to every closed set: the least closed set.
  ghost function LiveObjects(words: seq<Word>, objs: Objects, roots: seq<Word>): set<nat> {
    set o | o in objs && IsLive(words, objs, roots, o)
  }

  lemma LiveIsLeastClosed(words: seq<Word>, hp: nat, objs: Objects, roots: seq<Word>)
    requires Layout(words, hp, objs)
    requires forall i :: 0 <= i < |roots| ==> ValidTerm(objs, roots[i])
    ensures Closed(words, objs, roots, LiveObjects(words, objs, roots))
    ensures forall s :: Closed(words, objs, roots, s) ==> LiveObjects(words, objs, roots) <= s
  {
    var live := LiveObjects(words, objs, roots);
    assert Closed(words, objs, roots, objs.Keys);
    forall o: nat, k: nat | o in live && IsField(objs, o, k)
      ensures k < |words| && Targets(words[k], live)
    {
      if IsPointer(words[k]) {
        assert ValidTerm(objs, words[k]);
        forall s | Closed(words, objs, roots, s)
          ensures Offset(words[k]) in s
        {
          assert o in s;
        }
      }
    }
  }

  // A chain of fields from a root to the object at its end.
  ghost predicate IsPath(words: seq<Word>, objs: Objects, roots: seq<Word>, p: seq<nat>)
    decreases |p|
  {
    && |p| > 0 && p[|p| - 1] in objs
    && if |p| == 1 then PointedToBy(p[0], roots) else
         && IsPath(words, objs, roots, p[..|p| - 1])
         && HasEdge(words, objs, p[|p| - 2], p[|p| - 1])
  }

  ghost predicate PointedToBy(o: nat, roots: seq<Word>) {
    exists i :: 0 <= i < |roots| && IsPointer(roots[i]) && Offset(roots[i]) == o
  }

  ghost predicate HasEdge(words: seq<Word>, objs: Objects, o: nat, target: nat) {
    exists k: nat :: IsField(objs, o, k) && k < |words| && IsPointer(words[k]) && Offset(words[k]) == target
  }

  ghost predicate IsReachable(words: seq<Word>, objs: Objects, roots: seq<Word>, o: nat) {
    exists p :: IsPath(words, objs, roots, p) && p[|p| - 1] == o
  }

  lemma {:induction false} PathStaysInside(words: seq<Word>, objs: Objects, roots: seq<Word>, p: seq<nat>, s: set<nat>)
    requires IsPath(words, objs, roots, p) && Closed(words, objs, roots, s)
    ensures p[|p| - 1] in s
    decreases |p|
  {
    if |p| > 1 {
      PathStaysInside(words, objs, roots, p[..|p| - 1], s);
    }
  }

  // Liveness is reachability from the roots.
  lemma LiveIsReachable(words: seq<Word>, hp: nat, objs: Objects, roots: seq<Word>, o: nat)
    requires Layout(words, hp, objs)
    requires forall i :: 0 <= i < |roots| ==> ValidTerm(objs, roots[i])
    ensures o in LiveObjects(words, objs, roots) <==> IsReachable(words, objs, roots, o)
  {
    LiveIsLeastClosed(words, hp, objs, roots);
    if IsReachable(words, objs, roots, o) {
      var p :| IsPath(words, objs, roots, p) && p[|p| - 1] == o;
      PathStaysInside(words, objs, roots, p, LiveObjects(words, objs, roots));
    }
    ReachableIsClosed(words, hp, objs, roots);
  }

  lemma ReachableIsClosed(words: seq<Word>, hp: nat, objs: Objects, roots: seq<Word>)
    requires Layout(words, hp, objs)
    requires forall i :: 0 <= i < |roots| ==> ValidTerm(objs, roots[i])
    ensures Closed(words, objs, roots, set o | o in objs && IsReachable(words, objs, roots, o))
  {
    var s := set o | o in objs && IsReachable(words, objs, roots, o);
    forall i | 0 <= i < |roots|
      ensures Targets(roots[i], s)
    {
      if IsPointer(roots[i]) {
        assert ValidTerm(objs, roots[i]);
        assert IsPath(words, objs, roots, [Offset(roots[i])]);
      }
    }
    forall o: nat, k: nat | o in s && IsField(objs, o, k)
      ensures k < |words| && Targets(words[k], s)
    {
      assert ValidTerm(objs, words[k]);
      if IsPointer(words[k]) {
        var p :| IsPath(words, objs, roots, p) && p[|p| - 1] == o;
        var q := p + [Offset(words[k])];
        assert q[..|q| - 1] == p;
        assert IsPath(words, objs, roots, q);
      }
    }
  }

  // ---- sizes ----

  ghost predicate Occupies(objs: Objects, o: nat, k: nat) { o in objs && o <= k < o + objs[o].Size() }

  ghost predicate IsOccupied(objs: Objects, s: set<nat>, k: nat) { exists o :: o in s && Occupies(objs, o, k) }

  // The words, among the first hp, that the objects of s occupy.
  ghost function Words(hp: nat, objs: Objects, s: set<nat>): set<nat> {
    set k: nat | k < hp && IsOccupied(objs, s, k)
  }

  predicate AtLeast(lo: nat, k: nat) { lo <= k }

  function Range(lo: nat, hi: nat): set<nat> { set k: nat | k < hi && AtLeast(lo, k) }

  lemma {:induction false} RangeSize(lo: nat, hi: nat)
    requires lo <= hi
    ensures |Range(lo, hi)| == hi - lo
    decreases hi - lo
  {
    if lo < hi {
      RangeSize(lo, hi - 1);
      assert Range(lo, hi) == Range(lo, hi - 1) + {hi - 1};
    } else {
      assert Range(lo, hi) == {};
    }
  }

  lemma {:induction false} SubsetSize(a: set<nat>, b: set<nat>)
    requires a <= b
    ensures |a| <= |b|
  {
    assert b == a + (b - a);
  }

  // Adding one object to a set of objects adds exactly its size in words.
  lemma WordsAdd(hp: nat, objs: Objects, s: set<nat>, o: nat)
    requires Apart(hp, objs) && s <= objs.Keys && o in objs && o !in s
    ensures |Words(hp, objs, s + {o})| == |Words(hp, objs, s)| + objs[o].Size()
  {
    assert |Words(hp, objs, s + {o})| == |Words(hp, objs, s)| + |Range(o, o + objs[o].Size())| by {
      WordsAddSets(hp, objs, s, o);
      UnionSize(Words(hp, objs, s), Range(o, o + objs[o].Size()), Words(hp, objs, s + {o}));
    }
    RangeSize(o, o + objs[o].Size());
  }

  lemma UnionSize(a: set<nat>, b: set<nat>, c: set<nat>)
    requires c == a + b
    requires forall k :: k in a ==> k !in b
    ensures |c| == |a| + |b|
  {
    assert a * b == {};
  }

  lemma {:induction false} WordsAddSets(hp: nat, objs: Objects, s: set<nat>, o: nat)
    requires Apart(hp, objs) && s <= objs.Keys && o in objs && o !in s
    ensures Words(hp, objs, s + {o}) == Words(hp, objs, s) + Range(o, o + objs[o].Size())
    ensures forall k :: k in Words(hp, objs, s) ==> k !in Range(o, o + objs[o].Size())
  {
    forall k: nat
      ensures k in Words(hp, objs, s + {o}) <==> k in Words(hp, objs, s) || k in Range(o, o + objs[o].Size())
      ensures !(k in Words(hp, objs, s) && k in Range(o, o + objs[o].Size()))
    {
      OccupiedAdd(hp, objs, s, o, k);
    }
  }

  lemma OccupiedAdd(hp: nat, objs: Objects, s: set<nat>, o: nat, k: nat)
    requires Apart(hp, objs) && s <= objs.Keys && o in objs && o !in s
    ensures IsOccupied(objs, s + {o}, k) <==> IsOccupied(objs, s, k) || Occupies(objs, o, k)
    ensures !(IsOccupied(objs, s, k) && Occupies(objs, o, k))
    ensures Occupies(objs, o, k) ==> k < hp
  {
    assert BelowAt(hp, objs, o);
    if Occupies(objs, o, k) {
      assert o in s + {o};
    }
    if IsOccupied(objs, s, k) {
      var p :| p in s && Occupies(objs, p, k);
      assert p in s + {o};
      assert ApartAt(objs, p, o) && ApartAt(objs, o, p);
    }
  }

  lemma WordsBounds(hp: nat, objs: Objects, s: set<nat>, t: set<nat>)
    requires s <= t
    ensures |Words(hp, objs, s)| <= |Words(hp, objs, t)| <= hp
  {
    SubsetSize(Words(hp, objs, s), Words(hp, objs, t));
    SubsetSize(Words(hp, objs, t), Range(0, hp));
    RangeSize(0, hp);
  }

  // A space in use: its words, how many are allocated, what lies where, and
  // the root terms into it.
  datatype Snapshot = Snapshot(words: Space, hp: nat, objs: Objects, roots: seq<Word>) {
    ghost predicate Valid() {
      Layout(words, hp, objs) && forall i :: 0 <= i < |roots| ==> ValidTerm(objs, roots[i])
    }

    ghost function Live(): set<nat> { LiveObjects(words, objs, roots) }

    // The total size of the objects the roots keep alive.
    ghost function LiveSize(): nat { |Words(hp, objs, Live())| }
  }

  // ---- the tree a term stands for ----

  datatype Tree = Leaf(w: Word) | ConsT(head: Tree, tail: Tree) | TupleT(elems: seq<Tree>)

  ghost predicate Denotes(words: seq<Word>, objs: Objects, w: Word, t: Tree)
    decreases t
  {
    match t
    case Leaf(v) => w == v && !IsPointer(w)
    case ConsT(h, tl) =>
      && IsCons(w) && Offset(w) in objs && objs[Offset(w)].Pair? && Offset(w) + 1 < |words|
      && Denotes(words, objs, words[Offset(w)], h)
      && Denotes(words, objs, words[Offset(w) + 1], tl)
    case TupleT(es) =>
      && IsBoxed(w) && Offset(w) in objs && objs[Offset(w)] == Tuple(|es|)
      && Offset(w) + |es| < |words|
      && forall i :: 0 <= i < |es| ==> Denotes(words, objs, words[Offset(w) + 1 + i], es[i])
  }

  // A term stands for at most one tree.
  lemma {:induction false} DenotesUnique(words: seq<Word>, objs: Objects, w: Word, t: Tree, u: Tree)
    requires Denotes(words, objs, w, t) && Denotes(words, objs, w, u)
    ensures t == u
    decreases t
  {
    match t
    case Leaf(v) =>
    case ConsT(h, tl) =>
      DenotesUnique(words, objs, words[Offset(w)], h, u.head);
      DenotesUnique(words, objs, words[Offset(w) + 1], tl, u.tail);
    case TupleT(es) =>
      forall i | 0 <= i < |es|
        ensures es[i] == u.elems[i]
      {
        DenotesUnique(words, objs, words[Offset(w) + 1 + i], es[i], u.elems[i]);
      }
      assert es == u.elems;
  }
}
