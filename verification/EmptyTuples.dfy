// Exactly which heaps the collector handles.  A forwarding pointer takes two
// words, a tuple of arity 0 only one (mb_heap.c:96-98): the collection is
// right for every way to root the live objects iff no live empty tuple is
// followed by a live object or ends the space.
module EmptyTuples {
  import opened Term
  import opened Cheney
  import opened Graph
  import opened Collector

  // The collection of a is right: it stays inside the spaces and yields b,
  // the live part of a renamed by fwd.
  ghost predicate CollectsTo(a: Snapshot, to: Space, b: Snapshot, fwd: map<nat, nat>) {
    var r := Collect(a.words, to, a.roots);
    && r.Swept? && b.words == r.g.new_ && b.hp == r.g.hp && b.roots == r.roots
    && b.Valid() && Isomorphism(a, b, fwd)
  }

  ghost predicate CollectsWell(a: Snapshot, to: Space) { exists b, fwd :: CollectsTo(a, to, b, fwd) }

  // Other roots that keep the same objects alive.
  ghost predicate SameLive(a: Snapshot, roots: seq<Word>) {
    a.(roots := roots).Valid() && a.(roots := roots).Live() == a.Live()
  }

  // Boxed or cons pointer to the object at o.
  function PointerTo(obj: Obj, o: nat): Word { if obj.Pair? then MakeCons(o) else MakeBoxed(o) }

  lemma PointsTo(a: Snapshot, o: nat)
    requires a.Valid() && o in a.objs
    ensures o < PAYLOAD_LIMIT && o + a.objs[o].Size() <= |a.words|
    ensures var w := PointerTo(a.objs[o], o);
            ValidTerm(a.objs, w) && IsPointer(w) && Offset(w) == o && (IsCons(w) <==> a.objs[o].Pair?)
  {
    assert BelowAt(a.hp, a.objs, o);
    PointerRoundTrip(o);
  }

  // Additional roots to live objects keep nothing else alive.
  lemma MoreRoots(a: Snapshot, extra: seq<Word>)
    requires a.Valid()
    requires forall i :: 0 <= i < |extra| ==> ValidTerm(a.objs, extra[i]) && Targets(extra[i], a.Live())
    ensures SameLive(a, extra + a.roots)
  {
    var b := a.(roots := extra + a.roots);
    LiveIsLeastClosed(a.words, a.hp, a.objs, a.roots);
    LiveIsLeastClosed(b.words, b.hp, b.objs, b.roots);
    forall i | 0 <= i < |a.roots|
      ensures Targets(a.roots[i], b.Live())
    {
      assert b.roots[|extra| + i] == a.roots[i];
    }
    assert Closed(a.words, a.objs, a.roots, b.Live());
    assert Closed(b.words, b.objs, b.roots, a.Live());
  }

  // Roots already copied stay as they are.
  lemma {:induction false} RootsBelowStay(g: Gc, roots: seq<Word>, i: nat, j: nat)
    requires j < i <= |roots| && CopyRoots(g, roots, i).Swept?
    ensures CopyRoots(g, roots, i).roots[j] == roots[j]
    decreases |roots| - i
  {
    if i < |roots| {
      var c := CopyTerm(g, roots[i]);
      RootsBelowStay(c.g, roots[i := c.term], i + 1, j);
    }
  }

  // Forwarding the empty tuple at o stores the new offset 0 at o + 1.
  lemma EmptyForwards(a: Snapshot, to: Space, o: nat)
    requires a.Valid() && |to| == |a.words| && o in a.objs && a.objs[o] == Tuple(0)
    ensures var c := CopyTerm(Gc(a.words, to, 0), MakeBoxed(o));
            if o + 1 == |a.words| then c.Stuck?
            else c.Copied? && o + 1 < |a.words| == |c.g.old_| && c.g.old_[o] == MOVED && c.g.old_[o + 1] == 0
  {
    PointsTo(a, o);
    assert HasHeader(a.words, a.objs, o);
  }

  // Then whatever lies at o + 1 is forwarded, which overwrites that offset;
  // the next reference to the empty tuple follows the marker as if it were
  // an offset.
  lemma NeighbourForwards(g: Gc, o: nat, w: Word)
    requires o + 1 < |g.old_| && g.old_[o] == MOVED && g.old_[o + 1] == 0
    requires IsPointer(w) && Offset(w) == o + 1
    ensures var c := CopyTerm(g, w);
            c.Copied? ==> CopyTerm(c.g, MakeBoxed(o)) == Copied(c.g, MakeBoxed(MOVED))
  {
    PointerRoundTrip(o);
  }

  // Rooting an empty tuple, its neighbour and the tuple again.
  function Trap(o: nat, neighbour: Word): seq<Word> { [MakeBoxed(o), neighbour, MakeBoxed(o)] }

  lemma TrapSprings(a: Snapshot, to: Space, o: nat, w: Word, roots: seq<Word>)
    requires a.Valid() && |to| == |a.words| && o in a.objs && a.objs[o] == Tuple(0) && o + 1 < |a.words|
    requires IsPointer(w) && Offset(w) == o + 1
    ensures var r := CopyRoots(Gc(a.words, to, 0), Trap(o, w) + roots, 0);
            r.Swept? ==> |r.roots| == 3 + |roots| && r.roots[2] == MakeBoxed(MOVED)
  {
    var g, rs := Gc(a.words, to, 0), Trap(o, w) + roots;
    EmptyForwards(a, to, o);
    var c1 := CopyTerm(g, rs[0]);
    var rs1 := rs[0 := c1.term];
    NeighbourForwards(c1.g, o, w);
    var c2 := CopyTerm(c1.g, rs1[1]);
    if c2.Copied? {
      var rs2 := rs1[1 := c2.term];
      var c3 := CopyTerm(c2.g, rs2[2]);
      var rs3 := rs2[2 := c3.term];
      assert CopyRoots(g, rs, 0) == CopyRoots(c1.g, rs1, 1) == CopyRoots(c2.g, rs2, 2) == CopyRoots(c3.g, rs3, 3);
      if CopyRoots(c3.g, rs3, 3).Swept? {
        RootsBelowStay(c3.g, rs3, 3, 2);
      }
    }
  }

  // The marker, read as an offset, lies outside every space.
  lemma MarkerIsNoOffset(b: Snapshot)
    requires b.Valid()
    ensures !ValidTerm(b.objs, MakeBoxed(MOVED))
  {
    var w := MakeBoxed(MOVED);
    assert w == 0xEAD0_0022;
    if ValidTerm(b.objs, w) {
      assert BelowAt(b.hp, b.objs, Offset(w));
    }
  }

  // A heap that is not roomy, with the roots for which the collector fails.
  lemma CrampedFails(a: Snapshot, to: Space) returns (roots: seq<Word>)
    requires a.Valid() && |to| == |a.words| && !Roomy(|a.words|, a.objs, a.Live())
    ensures SameLive(a, roots) && !CollectsWell(a.(roots := roots), to)
  {
    var o := FindCramped(a);
    PointsTo(a, o);
    EmptyForwards(a, to, o);
    if o + 1 == |a.words| {
      roots := [MakeBoxed(o)] + a.roots;
      MoreRoots(a, [MakeBoxed(o)]);
      assert CopyRoots(Gc(a.words, to, 0), roots, 0).Lost?;
    } else {
      PointsTo(a, o + 1);
      var w := PointerTo(a.objs[o + 1], o + 1);
      roots := Trap(o, w) + a.roots;
      MoreRoots(a, Trap(o, w));
      TrapSprings(a, to, o, w, a.roots);
      forall b, fwd
        ensures !CollectsTo(a.(roots := roots), to, b, fwd)
      {
        if CollectsTo(a.(roots := roots), to, b, fwd) {
          assert ValidTerm(b.objs, b.roots[2]);
          MarkerIsNoOffset(b);
        }
      }
    }
  }

  // Only an empty tuple can be cramped: by the end of the space, or by a live
  // neighbour.
  lemma FindCramped(a: Snapshot) returns (o: nat)
    requires a.Valid() && !Roomy(|a.words|, a.objs, a.Live())
    ensures o in a.Live() && o in a.objs && a.objs[o] == Tuple(0)
    ensures o + 1 == |a.words| || (o + 1 < |a.words| && o + 1 in a.Live() && o + 1 in a.objs)
  {
    if p: nat :| !FitsAt(|a.words|, a.objs, a.Live(), p) {
      o := p;
      assert BelowAt(a.hp, a.objs, o);
    } else {
      var q: nat, k: nat :| !RoomAt(a.objs, a.Live(), q, k);
      o := q;
      assert BelowAt(a.hp, a.objs, k) && ApartAt(a.objs, q, k);
    }
  }

  // The exact condition of a correct collection, over all lists of roots that
  // keep these objects alive: mb_heap_gc takes any number of roots, and the
  // list for which a cramped heap fails may be longer than the 16 registers.
  lemma RoomyIsExact(a: Snapshot, to: Space)
    requires a.Valid() && |to| == |a.words|
    ensures Roomy(|a.words|, a.objs, a.Live()) <==>
              forall roots :: SameLive(a, roots) ==> CollectsWell(a.(roots := roots), to)
  {
    if Roomy(|a.words|, a.objs, a.Live()) {
      forall roots | SameLive(a, roots)
        ensures CollectsWell(a.(roots := roots), to)
      {
        var b, fwd := CollectIsIsomorphism(a.(roots := roots), to);
        assert CollectsTo(a.(roots := roots), to, b, fwd);
      }
    } else {
      var roots := CrampedFails(a, to);
    }
  }
}
