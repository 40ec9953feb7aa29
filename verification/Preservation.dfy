// What a collection keeps: the tree every term stands for, and liveness.
// And where it does not: tuples of arity 0.
module Preservation {
  import opened Term
  import opened Cheney
  import opened Graph
  import opened Collector

  // A moved pointer leads to the same kind of object, at a valid offset.
  lemma MovedPointer(a: Snapshot, b: Snapshot, fwd: map<nat, nat>, w: Word, w': Word)
    requires a.Valid() && b.Valid() && Isomorphism(a, b, fwd) && Moved(fwd, w, w') && IsPointer(w)
    ensures var o := Offset(w);
            && o in fwd && o in a.objs && Offset(w') == fwd[o] && fwd[o] in b.objs && b.objs[fwd[o]] == a.objs[o]
            && (IsCons(w) <==> IsCons(w')) && (IsBoxed(w) <==> IsBoxed(w'))
            && o + a.objs[o].Size() <= |a.words| && fwd[o] + a.objs[o].Size() <= |b.words|
  {
    var o := Offset(w);
    assert o in fwd && ObjMoved(a, b, fwd, o);
    assert BelowAt(a.hp, a.objs, o) && BelowAt(b.hp, b.objs, fwd[o]);
    PointerRoundTrip(fwd[o]);
  }

  lemma MovedField(a: Snapshot, b: Snapshot, fwd: map<nat, nat>, o: nat, k: nat)
    requires a.Valid() && Isomorphism(a, b, fwd) && o in fwd && IsField(a.objs, o, k)
    ensures k < |a.words| && fwd[o] + (k - o) < |b.words|
    ensures ValidTerm(a.objs, a.words[k]) && Moved(fwd, a.words[k], b.words[fwd[o] + (k - o)])
  {
    assert FieldMoved(a, b, fwd, o, k) && ObjMoved(a, b, fwd, o);
  }

  // A moved term stands for exactly the trees it stood for before.
  lemma {:induction false} MovedDenotes(a: Snapshot, b: Snapshot, fwd: map<nat, nat>, w: Word, w': Word, t: Tree)
    requires a.Valid() && b.Valid() && Isomorphism(a, b, fwd)
    requires Moved(fwd, w, w') && ValidTerm(a.objs, w)
    ensures Denotes(a.words, a.objs, w, t) <==> Denotes(b.words, b.objs, w', t)
    decreases t
  {
    if IsPointer(w) {
      MovedPointer(a, b, fwd, w, w');
      var o, n := Offset(w), fwd[Offset(w)];
      if t.ConsT? && a.objs[o].Pair? {
        MovedField(a, b, fwd, o, o);
        MovedField(a, b, fwd, o, o + 1);
        MovedDenotes(a, b, fwd, a.words[o], b.words[n], t.head);
        MovedDenotes(a, b, fwd, a.words[o + 1], b.words[n + 1], t.tail);
      } else if t.TupleT? && a.objs[o] == Tuple(|t.elems|) {
        forall i | 0 <= i < |t.elems|
          ensures Denotes(a.words, a.objs, a.words[o + 1 + i], t.elems[i]) <==>
                  Denotes(b.words, b.objs, b.words[n + 1 + i], t.elems[i])
        {
          MovedField(a, b, fwd, o, o + 1 + i);
          MovedDenotes(a, b, fwd, a.words[o + 1 + i], b.words[n + 1 + i], t.elems[i]);
        }
      }
    }
  }

  // Two moved terms are the same word iff they were the same word before.
  lemma SharingKept(a: Snapshot, b: Snapshot, fwd: map<nat, nat>, w: Word, v: Word, w': Word, v': Word)
    requires a.Valid() && b.Valid() && Isomorphism(a, b, fwd)
    requires Moved(fwd, w, w') && Moved(fwd, v, v')
    ensures w == v <==> w' == v'
  {
    if IsPointer(w) { MovedPointer(a, b, fwd, w, w'); }
    if IsPointer(v) { MovedPointer(a, b, fwd, v, v'); }
  }

  // Nothing unreachable was copied: the new heap is live as a whole.
  lemma AllLiveAfterwards(a: Snapshot, b: Snapshot, fwd: map<nat, nat>)
    requires a.Valid() && b.Valid() && Isomorphism(a, b, fwd)
    ensures b.Live() == b.objs.Keys
  {
    LiveIsLeastClosed(b.words, b.hp, b.objs, b.roots);
    LiveIsLeastClosed(a.words, a.hp, a.objs, a.roots);
    forall s' | Closed(b.words, b.objs, b.roots, s')
      ensures b.objs.Keys <= s'
    {
      PreimageIsClosed(a, b, fwd, s');
      assert fwd.Keys <= Preimage(fwd, s');
    }
  }

  ghost function Preimage(fwd: map<nat, nat>, s': set<nat>): set<nat> { set o | o in fwd && fwd[o] in s' }

  lemma PreimageIsClosed(a: Snapshot, b: Snapshot, fwd: map<nat, nat>, s': set<nat>)
    requires a.Valid() && b.Valid() && Isomorphism(a, b, fwd) && Closed(b.words, b.objs, b.roots, s')
    ensures Closed(a.words, a.objs, a.roots, Preimage(fwd, s'))
  {
    var s := Preimage(fwd, s');
    forall i | 0 <= i < |a.roots|
      ensures Targets(a.roots[i], s)
    {
      if IsPointer(a.roots[i]) { MovedPointer(a, b, fwd, a.roots[i], b.roots[i]); }
    }
    forall o: nat, k: nat | o in s && IsField(a.objs, o, k)
      ensures k < |a.words| && Targets(a.words[k], s)
    {
      MovedField(a, b, fwd, o, k);
      assert ObjMoved(a, b, fwd, o);
      var k' := fwd[o] + (k - o);
      assert IsField(b.objs, fwd[o], k');
      if IsPointer(a.words[k]) { MovedPointer(a, b, fwd, a.words[k], b.words[k']); }
    }
  }

  // ---- tuples of arity 0 ----

  // Without empty tuples every heap is roomy.
  lemma NoEmptyTuplesIsRoomy(words: seq<Word>, hp: nat, objs: Objects, live: set<nat>)
    requires Layout(words, hp, objs) && live <= objs.Keys
    requires forall o :: o in live ==> objs[o] != Tuple(0)
    ensures Roomy(|words|, objs, live)
  {
    forall o: nat
      ensures FitsAt(|words|, objs, live, o)
    {
      assert BelowAt(hp, objs, o);
    }
    forall o: nat, k: nat
      ensures RoomAt(objs, live, o, k)
    {
      assert BelowAt(hp, objs, o) && ApartAt(objs, o, k);
    }
  }

  // {} followed by [7 | nil], both in registers: forwarding the empty tuple
  // overwrites the head of the list cell, which arrives as 0.
  lemma EmptyTupleCorruptsNeighbour()
    ensures var a := Snapshot([0, 0x7F, 0xB], 3, map[0 := Tuple(0), 1 := Pair], [0x2, 0x11]);
            var r := Collect(a.words, [0, 0, 0], a.roots);
            && a.Valid()
            && a.words[Offset(a.roots[1])] == MakeSmallint(7)
            && r.Swept? && r.roots == a.roots && r.g.new_ == [0, 0, 0xB]
  {
    var a := Snapshot([0, 0x7F, 0xB], 3, map[0 := Tuple(0), 1 := Pair], [0x2, 0x11]);
    EmptyTupleLayout();
    var g0, g1 := Gc(a.words, [0, 0, 0], 0), Gc([MOVED, 0, 0xB], [0, 0, 0], 1);
    var g2 := Gc([MOVED, MOVED, 1], [0, 0, 0xB], 3);
    EmptyTupleForwards(g0, g1, g2);
    assert a.roots[0 := 0x2] == a.roots && a.roots[1 := 0x11] == a.roots;
    CopyRootsStep(g0, a.roots, 0, g1, 0x2);
    CopyRootsStep(g1, a.roots, 1, g2, 0x11);
    assert CopyRoots(g2, a.roots, 2) == Swept(g2, a.roots);
    EmptyTupleScan(g2);
  }

  lemma EmptyTupleForwards(g0: Gc, g1: Gc, g2: Gc)
    requires g0 == Gc([0, 0x7F, 0xB], [0, 0, 0], 0)
    requires g1 == Gc([MOVED, 0, 0xB], [0, 0, 0], 1) && g2 == Gc([MOVED, MOVED, 1], [0, 0, 0xB], 3)
    ensures CopyTerm(g0, 0x2) == Copied(g1, 0x2) && CopyTerm(g1, 0x11) == Copied(g2, 0x11)
  {
    assert g0.old_[0..1] == [0] && g0.new_[..0] + [0] + g0.new_[1..] == g1.new_;
    assert Forward(g0, 0, 1) == g1;
    assert g1.old_[1..3] == [0, 0xB] && g1.new_[..1] + [0, 0xB] + g1.new_[3..] == g2.new_;
    assert Forward(g1, 1, 2) == g2;
  }

  lemma CopyRootsStep(g: Gc, roots: seq<Word>, i: nat, g': Gc, t: Word)
    requires i < |roots| && CopyTerm(g, roots[i]) == Copied(g', t)
    ensures CopyRoots(g, roots, i) == CopyRoots(g', roots[i := t], i + 1)
  {
  }

  lemma EmptyTupleLayout()
    ensures Layout([0, 0x7F, 0xB], 3, map[0 := Tuple(0), 1 := Pair])
  {
    var objs := map[0 := Tuple(0), 1 := Pair];
    assert forall o: nat, k: nat :: IsField(objs, o, k) ==> k == 1 || k == 2;
  }

  lemma EmptyTupleScan(g: Gc)
    requires g.new_ == [0, 0, 0xB] && g.hp == 3
    ensures Scan(g, 0) == Copied(g, 0)
  {
    assert ScanRound(g, 2) == Next(g, 3) by {
      assert g.new_[2 := 0xB] == g.new_;
    }
    assert ScanRound(g, 1) == Next(g, 2) && ScanRound(g, 0) == Next(g, 1);
    assert Scan(g, 3) == Copied(g, 0);
    assert Scan(g, 2) == Copied(g, 0);
    assert Scan(g, 1) == Copied(g, 0);
  }
}
