// Cheney's collector is a graph isomorphism on the live objects.
//
// The proof carries two ghost values along a collection: the forwarding map
// from old to new object starts, and, for every word copied so far, the old
// object that owns it.
module Collector {
  import opened Term
  import opened Cheney
  import opened Graph

  // The heap as it was when the collection began, with the set of objects
  // that may be copied.
  datatype Source = Source(words: Space, hp: nat, objs: Objects, live: set<nat>)

  datatype Progress = Progress(fwd: map<nat, nat>, own: seq<nat>)

  ghost predicate FitsAt(cap: nat, objs: Objects, live: set<nat>, o: nat) {
    o in live && o in objs ==> o + objs[o].Span() <= cap
  }

  ghost predicate RoomAt(objs: Objects, live: set<nat>, o: nat, k: nat) {
    o in live && k in live && o in objs && o < k ==> o + objs[o].Span() <= k
  }

  // Every live object has room for a forwarding pointer that no other live
  // object uses.  Only a tuple of arity 0 can fail this.
  ghost predicate Roomy(cap: nat, objs: Objects, live: set<nat>) {
    && (forall o: nat :: FitsAt(cap, objs, live, o))
    && (forall o: nat, k: nat :: RoomAt(objs, live, o, k))
  }

  ghost predicate Collectable(s: Source) {
    && Layout(s.words, s.hp, s.objs)
    && Closed(s.words, s.objs, [], s.live)
    && Roomy(|s.words|, s.objs, s.live)
  }

  ghost function SizeAt(s: Source, o: nat): nat { if o in s.objs then s.objs[o].Size() else 0 }

  // The word w redirected to where its target went.
  ghost predicate Moved(fwd: map<nat, nat>, w: Word, w': Word) {
    if IsBoxed(w) then Offset(w) in fwd && w' == MakeBoxed(fwd[Offset(w)])
    else if IsCons(w) then Offset(w) in fwd && w' == MakeCons(fwd[Offset(w)])
    else w' == w
  }

  // ---- the invariant ----

  ghost predicate Sizes(s: Source, g: Gc, p: Progress, scan: nat) {
    && |g.old_| == |g.new_| == |s.words|
    && scan <= |p.own| <= |g.new_|
    && g.hp == |p.own| == |Words(s.hp, s.objs, p.fwd.Keys)|
    && p.fwd.Keys <= s.live
  }

  ghost predicate UntouchedAt(s: Source, g: Gc, p: Progress, o: nat, k: nat) {
    o in s.live && o !in p.fwd && Occupies(s.objs, o, k) ==>
      k < |g.old_| && k < |s.words| && g.old_[k] == s.words[k]
  }

  ghost predicate MarkedAt(g: Gc, p: Progress, o: nat) {
    o in p.fwd ==> o + 1 < |g.old_| && g.old_[o] == MOVED && g.old_[o + 1] == p.fwd[o]
  }

  ghost predicate PlacedAt(s: Source, p: Progress, o: nat) {
    o in p.fwd ==>
      && p.fwd[o] + SizeAt(s, o) <= |p.own|
      && forall k: nat :: p.fwd[o] <= k < p.fwd[o] + SizeAt(s, o) ==> p.own[k] == o
  }

  ghost predicate OwnedAt(s: Source, p: Progress, k: nat) {
    k < |p.own| ==> p.own[k] in p.fwd && p.fwd[p.own[k]] <= k < p.fwd[p.own[k]] + SizeAt(s, p.own[k])
  }

  // The old offset of the word copied to k.
  ghost function Origin(p: Progress, k: nat): int {
    if k < |p.own| && p.own[k] in p.fwd then p.own[k] + k - p.fwd[p.own[k]] else -1
  }

  ghost predicate FilledAt(s: Source, g: Gc, p: Progress, scan: nat, k: nat) {
    k < |p.own| ==>
      && k < |g.new_| && 0 <= Origin(p, k) < |s.words|
      && if k < scan then Moved(p.fwd, s.words[Origin(p, k)], g.new_[k]) else g.new_[k] == s.words[Origin(p, k)]
  }

  ghost predicate Inv(s: Source, g: Gc, p: Progress, scan: nat) {
    && Sizes(s, g, p, scan)
    && (forall o: nat, k: nat :: UntouchedAt(s, g, p, o, k))
    && (forall o: nat :: MarkedAt(g, p, o))
    && (forall o: nat :: PlacedAt(s, p, o))
    && (forall k: nat :: OwnedAt(s, p, k))
    && (forall k: nat :: FilledAt(s, g, p, scan, k))
  }

  // ---- relocating one object ----

  ghost function Extend(s: Source, p: Progress, o: nat): Progress {
    Progress(p.fwd[o := |p.own|], p.own + seq(SizeAt(s, o), _ => o))
  }

  // There is always room: what is copied so far and the next object are
  // different words below the old allocation pointer.
  lemma RelocateFits(s: Source, g: Gc, p: Progress, scan: nat, o: nat)
    requires Collectable(s) && Sizes(s, g, p, scan) && o in s.live && o !in p.fwd
    ensures o in s.objs && g.hp + SizeAt(s, o) <= s.hp <= |g.new_|
    ensures o + SizeAt(s, o) <= |g.old_| && o + 1 < |g.old_|
    ensures |Words(s.hp, s.objs, p.fwd[o := g.hp].Keys)| == g.hp + SizeAt(s, o)
  {
    assert p.fwd[o := g.hp].Keys == p.fwd.Keys + {o};
    assert BelowAt(s.hp, s.objs, o) && FitsAt(|s.words|, s.objs, s.live, o);
    WordsAdd(s.hp, s.objs, p.fwd.Keys, o);
    WordsBounds(s.hp, s.objs, p.fwd.Keys + {o}, s.live);
  }

  // A word of one live object is not used by another's forwarding pointer.
  lemma SpansApart(s: Source, q: nat, o: nat)
    requires Collectable(s) && q in s.live && o in s.live && q != o
    ensures o in s.objs && q in s.objs && o + 1 < |s.words|
    ensures q + s.objs[q].Span() <= o || o + s.objs[o].Span() <= q
  {
    assert RoomAt(s.objs, s.live, q, o) && RoomAt(s.objs, s.live, o, q) && FitsAt(|s.words|, s.objs, s.live, o);
  }

  lemma RelocateOld(s: Source, g: Gc, p: Progress, scan: nat, o: nat, q: nat, k: nat)
    requires Collectable(s) && Sizes(s, g, p, scan)
    requires UntouchedAt(s, g, p, q, k) && MarkedAt(g, p, q)
    requires o in s.live && o !in p.fwd
    requires o in s.objs && o + SizeAt(s, o) <= |g.old_| && o + 1 < |g.old_| && g.hp + SizeAt(s, o) <= |g.new_|
    ensures UntouchedAt(s, Forward(g, o, SizeAt(s, o)), Extend(s, p, o), q, k)
    ensures MarkedAt(Forward(g, o, SizeAt(s, o)), Extend(s, p, o), q)
  {
    if q in s.live && q != o {
      SpansApart(s, q, o);
    }
  }

  lemma RelocateOwn(s: Source, p: Progress, o: nat)
    requires o in s.objs && o !in p.fwd
    requires forall q: nat :: PlacedAt(s, p, q)
    requires forall k: nat :: OwnedAt(s, p, k)
    ensures forall q: nat :: PlacedAt(s, Extend(s, p, o), q)
    ensures forall k: nat :: OwnedAt(s, Extend(s, p, o), k)
  {
    forall q: nat
      ensures PlacedAt(s, Extend(s, p, o), q)
    {
      assert PlacedAt(s, p, q);
    }
    forall k: nat
      ensures OwnedAt(s, Extend(s, p, o), k)
    {
      assert OwnedAt(s, p, k);
    }
  }

  lemma ForwardWord(g: Gc, off: nat, size: nat, k: nat)
    requires off + size <= |g.old_| && off + 1 < |g.old_| && g.hp + size <= |g.new_| && k < |g.new_|
    ensures var w := Forward(g, off, size).new_[k];
            w == if g.hp <= k < g.hp + size then g.old_[off + k - g.hp] else g.new_[k]
  {
  }

  lemma RelocateNew(s: Source, g: Gc, p: Progress, scan: nat, o: nat, k: nat)
    requires Sizes(s, g, p, scan) && (k >= g.hp ==> UntouchedAt(s, g, p, o, o + k - g.hp))
    requires o in s.live && o !in p.fwd
    requires o in s.objs && o + SizeAt(s, o) <= |g.old_| && o + 1 < |g.old_| && g.hp + SizeAt(s, o) <= |g.new_|
    requires OwnedAt(s, p, k) && FilledAt(s, g, p, scan, k)
    ensures FilledAt(s, Forward(g, o, SizeAt(s, o)), Extend(s, p, o), scan, k)
  {
    var p' := Extend(s, p, o);
    if k < |p'.own| {
      ForwardWord(g, o, SizeAt(s, o), k);
      if k < |p.own| {
        assert p'.own[k] == p.own[k];
        assert Origin(p', k) == Origin(p, k);
      } else {
        assert p'.own[k] == o && Origin(p', k) == o + (k - g.hp);
        assert Occupies(s.objs, o, o + (k - g.hp));
      }
    }
  }

  lemma Relocated(s: Source, g: Gc, p: Progress, scan: nat, o: nat)
    requires Collectable(s) && Inv(s, g, p, scan) && o in s.live && o !in p.fwd
    ensures o in s.objs && o + SizeAt(s, o) <= |g.old_| && o + 1 < |g.old_| && g.hp + SizeAt(s, o) <= |g.new_|
    ensures Inv(s, Forward(g, o, SizeAt(s, o)), Extend(s, p, o), scan)
  {
    RelocateFits(s, g, p, scan, o);
    assert Extend(s, p, o).fwd == p.fwd[o := g.hp];
    assert Sizes(s, Forward(g, o, SizeAt(s, o)), Extend(s, p, o), scan);
    forall q: nat, k: nat
      ensures UntouchedAt(s, Forward(g, o, SizeAt(s, o)), Extend(s, p, o), q, k)
    {
      assert UntouchedAt(s, g, p, q, k) && MarkedAt(g, p, q);
      RelocateOld(s, g, p, scan, o, q, k);
    }
    forall q: nat
      ensures MarkedAt(Forward(g, o, SizeAt(s, o)), Extend(s, p, o), q)
    {
      assert UntouchedAt(s, g, p, q, q) && MarkedAt(g, p, q);
      RelocateOld(s, g, p, scan, o, q, q);
    }
    RelocateOwn(s, p, o);
    forall k: nat
      ensures FilledAt(s, Forward(g, o, SizeAt(s, o)), Extend(s, p, o), scan, k)
    {
      assert OwnedAt(s, p, k) && FilledAt(s, g, p, scan, k);
      assert k >= g.hp ==> UntouchedAt(s, g, p, o, o + k - g.hp);
      RelocateNew(s, g, p, scan, o, k);
    }
  }

  // ---- copying one term ----

  ghost predicate KeptAt(p: Progress, p': Progress, o: nat) {
    o in p.fwd ==> o in p'.fwd && p'.fwd[o] == p.fwd[o]
  }

  // Progress is only ever added to.
  ghost predicate Grows(p: Progress, p': Progress) {
    && |p.own| <= |p'.own|
    && p'.own[..|p.own|] == p.own
    && (forall o: nat :: KeptAt(p, p', o))
  }

  lemma GrowsTransitive(p: Progress, q: Progress, r: Progress)
    requires Grows(p, q) && Grows(q, r)
    ensures Grows(p, r)
  {
    forall o: nat
      ensures KeptAt(p, r, o)
    {
      assert KeptAt(p, q, o) && KeptAt(q, r, o);
    }
    assert r.own[..|p.own|] == r.own[..|q.own|][..|p.own|];
  }

  // A header or a valid term of an unmoved object is never the forwarding
  // marker: read as a boxed pointer the marker lies outside every space.
  lemma UnmovedIsNotMarked(s: Source, o: nat)
    requires Collectable(s) && o in s.live
    ensures o in s.objs && o + s.objs[o].Size() <= s.hp <= |s.words| && s.words[o] != MOVED
    ensures s.objs[o].Tuple? ==>
              IsTupleHeader(s.words[o]) && TupleArity(s.words[o]) == s.objs[o].arity
  {
    assert HasHeader(s.words, s.objs, o) && BelowAt(s.hp, s.objs, o);
    if s.objs[o].Pair? {
      assert IsField(s.objs, o, o) && BelowAt(s.hp, s.objs, Offset(s.words[o]));
    }
  }

  // A pointer to an object that was moved is redirected.
  lemma CopyMoved(s: Source, g: Gc, p: Progress, scan: nat, t: Word)
    requires Inv(s, g, p, scan) && ValidTerm(s.objs, t) && IsPointer(t) && Offset(t) in p.fwd
    ensures CopyTerm(g, t).Copied? && CopyTerm(g, t).g == g && Moved(p.fwd, t, CopyTerm(g, t).term)
  {
    assert MarkedAt(g, p, Offset(t));
  }

  // A pointer to one that was not moves it.
  lemma CopyUnmoved(s: Source, g: Gc, p: Progress, scan: nat, t: Word)
    requires Collectable(s) && Inv(s, g, p, scan)
    requires ValidTerm(s.objs, t) && IsPointer(t) && Offset(t) in s.live && Offset(t) !in p.fwd
    ensures CopyTerm(g, t).Copied?
    ensures Inv(s, CopyTerm(g, t).g, Extend(s, p, Offset(t)), scan)
    ensures Moved(Extend(s, p, Offset(t)).fwd, t, CopyTerm(g, t).term)
  {
    var o := Offset(t);
    UnmovedIsNotMarked(s, o);
    assert UntouchedAt(s, g, p, o, o);
    assert g.old_[o] == s.words[o];
    Relocated(s, g, p, scan, o);
  }

  // Copying a valid term succeeds, keeps the invariant, and yields the term
  // redirected by the extended forwarding map.
  lemma CopyTermKeeps(s: Source, g: Gc, p: Progress, scan: nat, t: Word) returns (p': Progress)
    requires Collectable(s) && Inv(s, g, p, scan)
    requires ValidTerm(s.objs, t) && Targets(t, s.live)
    ensures CopyTerm(g, t).Copied?
    ensures Inv(s, CopyTerm(g, t).g, p', scan) && Grows(p, p')
    ensures Moved(p'.fwd, t, CopyTerm(g, t).term)
    ensures p' == if IsPointer(t) && Offset(t) !in p.fwd then Extend(s, p, Offset(t)) else p
  {
    p' := p;
    if IsPointer(t) {
      if Offset(t) in p.fwd {
        CopyMoved(s, g, p, scan, t);
      } else {
        CopyUnmoved(s, g, p, scan, t);
        p' := Extend(s, p, Offset(t));
      }
    }
  }

  // ---- the scan ----

  // The word copied to k is a term, not a header.
  ghost predicate AtField(s: Source, p: Progress, k: nat) {
    k < |p.own| && Origin(p, k) >= 0 && IsField(s.objs, p.own[k], Origin(p, k))
  }

  // k is where an object starts, or inside a cons cell, or the end.
  ghost predicate Boundary(s: Source, p: Progress, k: nat) {
    k < |p.own| ==>
      p.own[k] in p.fwd && p.own[k] in s.objs && (s.objs[p.own[k]].Pair? || p.fwd[p.own[k]] == k)
  }

  lemma Advance(s: Source, g: Gc, p: Progress, scan: nat, t: Word)
    requires Inv(s, g, p, scan) && scan < g.hp && 0 <= Origin(p, scan) < |s.words|
    requires Moved(p.fwd, s.words[Origin(p, scan)], t)
    ensures Inv(s, g.(new_ := g.new_[scan := t]), p, scan + 1)
  {
    var g', next := g.(new_ := g.new_[scan := t]), scan + 1;
    forall o: nat, k: nat
      ensures UntouchedAt(s, g', p, o, k)
    {
      assert UntouchedAt(s, g, p, o, k);
    }
    forall o: nat
      ensures MarkedAt(g', p, o)
    {
      assert MarkedAt(g, p, o);
    }
    forall k: nat
      ensures FilledAt(s, g', p, next, k)
    {
      assert FilledAt(s, g, p, scan, k);
    }
  }

  lemma SkipWord(s: Source, g: Gc, p: Progress, scan: nat)
    requires Inv(s, g, p, scan) && scan < g.hp && !IsPointer(g.new_[scan])
    ensures Inv(s, g, p, scan + 1)
  {
    assert FilledAt(s, g, p, scan, scan);
    Advance(s, g, p, scan, g.new_[scan]);
    assert g.(new_ := g.new_[scan := g.new_[scan]]) == g;
  }

  lemma GrowsKeepsOrigin(s: Source, p: Progress, p': Progress, k: nat)
    requires Grows(p, p') && OwnedAt(s, p, k) && k < |p.own|
    ensures Origin(p', k) == Origin(p, k) && p'.own[k] == p.own[k]
    ensures AtField(s, p, k) ==> AtField(s, p', k)
  {
    assert p'.own[k] == p'.own[..|p.own|][k];
    assert KeptAt(p, p', p.own[k]);
  }

  lemma CopyWordKeeps(s: Source, g: Gc, p: Progress, scan: nat) returns (p': Progress)
    requires Collectable(s) && Inv(s, g, p, scan) && AtField(s, p, scan)
    ensures CopyWord(g, scan).Copied?
    ensures Inv(s, CopyWord(g, scan).g, p', scan + 1) && Grows(p, p')
  {
    assert OwnedAt(s, p, scan) && FilledAt(s, g, p, scan, scan);
    var w := g.new_[scan];
    assert p.own[scan] in s.live;
    p' := CopyTermKeeps(s, g, p, scan, w);
    var c := CopyTerm(g, w);
    GrowsKeepsOrigin(s, p, p', scan);
    Advance(s, c.g, p', scan, c.term);
  }

  ghost predicate Fields(s: Source, p: Progress, lo: nat, hi: nat) {
    forall k: nat :: lo <= k < hi ==> AtField(s, p, k)
  }

  lemma FieldsGrow(s: Source, p: Progress, p': Progress, lo: nat, hi: nat)
    requires Grows(p, p') && Fields(s, p, lo, hi)
    requires forall k: nat :: OwnedAt(s, p, k)
    ensures Fields(s, p', lo, hi)
  {
    forall k: nat | lo <= k < hi
      ensures AtField(s, p', k)
    {
      assert AtField(s, p, k) && OwnedAt(s, p, k);
      GrowsKeepsOrigin(s, p, p', k);
    }
  }

  lemma ScanElementKeeps(s: Source, g: Gc, p: Progress, scan: nat, n: nat, hi: nat, c: Copy)
      returns (g': Gc, p': Progress)
    requires Collectable(s) && Inv(s, g, p, scan) && scan < hi && Fields(s, p, scan, hi) && n > 0
    requires c == ScanElements(g, scan, n)
    ensures c == ScanElements(g', scan + 1, n - 1)
    ensures Inv(s, g', p', scan + 1) && Grows(p, p') && Fields(s, p', scan + 1, hi)
  {
    p' := CopyWordKeeps(s, g, p, scan);
    g' := CopyWord(g, scan).g;
    FieldsGrow(s, p, p', scan + 1, hi);
  }

  lemma {:induction false} ScanElementsKeeps(s: Source, g: Gc, p: Progress, scan: nat, n: nat, hi: nat, c: Copy)
      returns (g': Gc, p': Progress)
    requires Collectable(s) && Inv(s, g, p, scan) && Fields(s, p, scan, hi) && hi == scan + n
    requires c == ScanElements(g, scan, n)
    ensures c == Copied(g', 0)
    ensures Inv(s, g', p', hi) && Grows(p, p')
    decreases n
  {
    if n == 0 {
      g', p' := g, p;
    } else {
      var next, m := scan + 1, n - 1;
      var h, q := ScanElementKeeps(s, g, p, scan, n, hi, c);
      g', p' := ScanElementsKeeps(s, h, q, next, m, hi, c);
      GrowsTransitive(p, q, p');
    }
  }

  // The word after the last word of an object, or after a word of a cons
  // cell, starts another object, continues the cell or is the end.
  lemma NextBoundary(s: Source, p: Progress, k: nat)
    requires forall q: nat :: PlacedAt(s, p, q)
    requires forall j: nat :: OwnedAt(s, p, j)
    requires p.fwd.Keys <= s.objs.Keys
    requires k < |p.own| && p.own[k] in s.objs
    requires s.objs[p.own[k]].Pair? || (p.own[k] in p.fwd && k + 1 == p.fwd[p.own[k]] + SizeAt(s, p.own[k]))
    ensures Boundary(s, p, k + 1)
  {
    if k + 1 < |p.own| {
      assert OwnedAt(s, p, k) && OwnedAt(s, p, k + 1);
      assert PlacedAt(s, p, p.own[k + 1]);
    }
  }

  lemma ScanPairStep(s: Source, g: Gc, p: Progress, scan: nat) returns (g': Gc, p': Progress)
    requires Collectable(s) && Inv(s, g, p, scan) && scan < g.hp
    requires Boundary(s, p, scan) && s.objs[p.own[scan]].Pair?
    ensures scan < |g.new_| && ScanRound(g, scan) == Next(g', scan + 1)
    ensures Inv(s, g', p', scan + 1) && Boundary(s, p', scan + 1) && Grows(p, p')
  {
    assert OwnedAt(s, p, scan) && FilledAt(s, g, p, scan, scan);
    assert AtField(s, p, scan);
    assert ValidTerm(s.objs, g.new_[scan]);
    if IsTupleHeader(g.new_[scan]) {
      g', p' := g, p;
      SkipWord(s, g, p, scan);
      assert ScanElements(g, scan + 1, 0) == Copied(g, 0);
    } else {
      p' := CopyWordKeeps(s, g, p, scan);
      g' := CopyWord(g, scan).g;
    }
    NextBoundary(s, p', scan);
  }

  // At the start of a tuple's copy: its header, then a field per element.
  lemma TupleCopied(s: Source, g: Gc, p: Progress, scan: nat)
    requires Collectable(s) && Inv(s, g, p, scan) && scan < g.hp
    requires Boundary(s, p, scan) && s.objs[p.own[scan]].Tuple?
    ensures IsTupleHeader(g.new_[scan]) && TupleArity(g.new_[scan]) == s.objs[p.own[scan]].arity
    ensures Fields(s, p, scan + 1, scan + 1 + TupleArity(g.new_[scan]))
    ensures p.own[scan] in p.fwd && scan == p.fwd[p.own[scan]]
  {
    var o := p.own[scan];
    assert OwnedAt(s, p, scan) && FilledAt(s, g, p, scan, scan) && PlacedAt(s, p, o);
    UnmovedIsNotMarked(s, o);
  }

  // Where a round starts, a word has the header pattern iff it is the header of
  // a copied tuple or the word 0, which passes for an empty tuple and is
  // skipped like the term it is.
  lemma HeadersAreUnambiguous(s: Source, g: Gc, p: Progress, scan: nat)
    requires Collectable(s) && Inv(s, g, p, scan) && Boundary(s, p, scan) && scan < g.hp
    ensures p.own[scan] in s.objs && scan < |g.new_|
    ensures IsTupleHeader(g.new_[scan]) <==> s.objs[p.own[scan]].Tuple? || g.new_[scan] == 0
  {
    var o := p.own[scan];
    assert OwnedAt(s, p, scan) && FilledAt(s, g, p, scan, scan);
    if s.objs[o].Tuple? {
      TupleCopied(s, g, p, scan);
    } else {
      assert IsField(s.objs, o, Origin(p, scan));
    }
  }

  lemma ScanTupleStep(s: Source, g: Gc, p: Progress, scan: nat) returns (g': Gc, p': Progress, next: nat)
    requires Collectable(s) && Inv(s, g, p, scan) && scan < g.hp
    requires Boundary(s, p, scan) && s.objs[p.own[scan]].Tuple?
    ensures scan < |g.new_| && ScanRound(g, scan) == Next(g', next)
    ensures Inv(s, g', p', next) && Boundary(s, p', next)
    ensures Grows(p, p')
  {
    TupleCopied(s, g, p, scan);
    var o, n := p.own[scan], TupleArity(g.new_[scan]);
    next := scan + 1 + n;
    SkipWord(s, g, p, scan);
    g', p' := ScanElementsKeeps(s, g, p, scan + 1, n, next, ScanElements(g, scan + 1, n));
    assert Boundary(s, p', next) by {
      assert KeptAt(p, p', o) && PlacedAt(s, p', o);
      NextBoundary(s, p', scan + n);
    }
    TupleRound(g, scan, g');
  }

  lemma TupleRound(g: Gc, scan: nat, g': Gc)
    requires scan < |g.new_| && IsTupleHeader(g.new_[scan])
    requires ScanElements(g, scan + 1, TupleArity(g.new_[scan])) == Copied(g', 0)
    ensures ScanRound(g, scan) == Next(g', scan + 1 + TupleArity(g.new_[scan]))
  {
  }

  // One round moves from boundary to boundary.
  lemma RoundKeeps(s: Source, g: Gc, p: Progress, scan: nat) returns (g': Gc, p': Progress, scan': nat)
    requires Collectable(s) && Inv(s, g, p, scan) && Boundary(s, p, scan) && scan < g.hp
    ensures scan < |g.new_| && ScanRound(g, scan) == Next(g', scan')
    ensures Inv(s, g', p', scan') && Boundary(s, p', scan') && Grows(p, p')
  {
    assert p.own[scan] in s.objs;
    if s.objs[p.own[scan]].Tuple? {
      g', p', scan' := ScanTupleStep(s, g, p, scan);
    } else {
      g', p' := ScanPairStep(s, g, p, scan);
      scan' := scan + 1;
    }
  }

  // From a boundary the scan runs to the allocation pointer without leaving
  // the spaces.  A word with the header pattern is a tuple's header or 0.
  lemma {:induction false} ScanKeeps(s: Source, g: Gc, p: Progress, scan: nat) returns (g': Gc, p': Progress)
    requires Collectable(s) && Inv(s, g, p, scan) && Boundary(s, p, scan)
    ensures Scan(g, scan) == Copied(g', 0)
    ensures Inv(s, g', p', g'.hp) && Grows(p, p')
    decreases |g.new_| - scan
  {
    if scan >= g.hp {
      g', p' := g, p;
    } else {
      var h, q, next := RoundKeeps(s, g, p, scan);
      g', p' := ScanKeeps(s, h, q, next);
      GrowsTransitive(p, q, p');
    }
  }

  // ---- the roots ----

  lemma MovedGrows(p: Progress, p': Progress, w: Word, w': Word)
    requires Grows(p, p') && Moved(p.fwd, w, w')
    ensures Moved(p'.fwd, w, w')
  {
    assert KeptAt(p, p', Offset(w));
  }

  ghost predicate RootOk(s: Source, w: Word) { ValidTerm(s.objs, w) && Targets(w, s.live) }

  lemma {:induction false} RootsKeep(s: Source, g: Gc, p: Progress, roots: seq<Word>, i: nat) returns (p': Progress)
    requires Collectable(s) && Inv(s, g, p, 0) && i <= |roots|
    requires forall j :: i <= j < |roots| ==> RootOk(s, roots[j])
    ensures var r := CopyRoots(g, roots, i);
            && r.Swept? && Inv(s, r.g, p', 0) && Grows(p, p') && |r.roots| == |roots|
            && (forall j :: 0 <= j < i ==> r.roots[j] == roots[j])
            && (forall j :: i <= j < |roots| ==> Moved(p'.fwd, roots[j], r.roots[j]))
    decreases |roots| - i
  {
    p' := p;
    if i < |roots| {
      var q := CopyTermKeeps(s, g, p, 0, roots[i]);
      var c := CopyTerm(g, roots[i]);
      p' := RootsKeep(s, c.g, q, roots[i := c.term], i + 1);
      GrowsTransitive(p, q, p');
      MovedGrows(q, p', roots[i], c.term);
    }
  }

  // ---- the theorem ----

  ghost predicate Injective(fwd: map<nat, nat>) {
    forall a, b :: a in fwd && b in fwd && fwd[a] == fwd[b] ==> a == b
  }

  ghost predicate ObjMoved(a: Snapshot, b: Snapshot, fwd: map<nat, nat>, o: nat) {
    o in fwd ==> fwd[o] in b.objs && o in a.objs && b.objs[fwd[o]] == a.objs[o]
  }

  ghost predicate FieldMoved(a: Snapshot, b: Snapshot, fwd: map<nat, nat>, o: nat, k: nat) {
    o in fwd && IsField(a.objs, o, k) ==>
      k < |a.words| && fwd[o] + (k - o) < |b.words| && Moved(fwd, a.words[k], b.words[fwd[o] + (k - o)])
  }

  // b is the live part of a renamed by fwd: the same objects, sharing and
  // fields, and nothing more.
  ghost predicate Isomorphism(a: Snapshot, b: Snapshot, fwd: map<nat, nat>) {
    && fwd.Keys == a.Live() <= a.objs.Keys
    && Injective(fwd)
    && b.objs.Keys == fwd.Values
    && |b.roots| == |a.roots|
    && (forall i :: 0 <= i < |a.roots| ==> Moved(fwd, a.roots[i], b.roots[i]))
    && (forall o: nat :: ObjMoved(a, b, fwd, o))
    && (forall o: nat, k: nat :: FieldMoved(a, b, fwd, o, k))
  }

  lemma Begin(s: Source, to: Space)
    requires Collectable(s) && |to| == |s.words|
    ensures Inv(s, Gc(s.words, to, 0), Progress(map[], []), 0)
  {
    var p := Progress(map[], []);
    assert p.fwd.Keys == {};
    assert Words(s.hp, s.objs, {}) == {};
    forall k: nat
      ensures FilledAt(s, Gc(s.words, to, 0), p, 0, k)
    {
    }
    forall o: nat, k: nat
      ensures UntouchedAt(s, Gc(s.words, to, 0), p, o, k)
    {
      assert BelowAt(s.hp, s.objs, o);
    }
  }

  // At the end every copied field has been redirected.
  lemma FieldAtEnd(s: Source, g: Gc, p: Progress, o: nat, k: nat)
    requires Collectable(s) && Inv(s, g, p, g.hp) && o in p.fwd && IsField(s.objs, o, k)
    ensures k < |s.words| && p.fwd[o] + (k - o) < g.hp <= |g.new_|
    ensures Moved(p.fwd, s.words[k], g.new_[p.fwd[o] + (k - o)])
  {
    var j := p.fwd[o] + (k - o);
    assert PlacedAt(s, p, o) && FilledAt(s, g, p, g.hp, j);
    assert p.own[j] == o && Origin(p, j) == k;
  }

  lemma EverythingLiveIsCopied(s: Source, g: Gc, p: Progress, roots: seq<Word>, roots': seq<Word>)
    requires Collectable(s) && Inv(s, g, p, g.hp) && s.live == LiveObjects(s.words, s.objs, roots)
    requires |roots'| == |roots| && forall i :: 0 <= i < |roots| ==> Moved(p.fwd, roots[i], roots'[i])
    ensures p.fwd.Keys == s.live
  {
    forall o: nat, k: nat | o in p.fwd.Keys && IsField(s.objs, o, k)
      ensures k < |s.words| && Targets(s.words[k], p.fwd.Keys)
    {
      FieldAtEnd(s, g, p, o, k);
    }
    assert Closed(s.words, s.objs, roots, p.fwd.Keys);
    assert s.live <= p.fwd.Keys;
  }

  lemma ForwardingIsInjective(s: Source, p: Progress)
    requires forall o: nat :: PlacedAt(s, p, o)
    requires p.fwd.Keys <= s.objs.Keys
    ensures Injective(p.fwd)
  {
    forall a, b | a in p.fwd && b in p.fwd && p.fwd[a] == p.fwd[b]
      ensures a == b
    {
      assert PlacedAt(s, p, a) && PlacedAt(s, p, b);
      assert p.own[p.fwd[a]] == a;
    }
  }

  // The layout of the new space.
  ghost function Relaid(s: Source, p: Progress): Objects {
    map k: nat | k < |p.own| && p.own[k] in p.fwd && p.own[k] in s.objs && p.fwd[p.own[k]] == k :: s.objs[p.own[k]]
  }

  lemma RelaidAt(s: Source, p: Progress, o: nat)
    requires PlacedAt(s, p, o) && o in p.fwd && o in s.objs
    ensures p.fwd[o] in Relaid(s, p) && Relaid(s, p)[p.fwd[o]] == s.objs[o]
  {
    assert p.own[p.fwd[o]] == o;
  }

  lemma RelaidKeys(s: Source, p: Progress)
    requires forall o: nat :: PlacedAt(s, p, o)
    requires p.fwd.Keys <= s.objs.Keys
    ensures Relaid(s, p).Keys == p.fwd.Values
  {
    forall o: nat | o in p.fwd
      ensures p.fwd[o] in Relaid(s, p)
    {
      assert PlacedAt(s, p, o);
      RelaidAt(s, p, o);
    }
  }

  lemma RelaidField(s: Source, g: Gc, p: Progress, n: nat, k: nat)
    requires Collectable(s) && Inv(s, g, p, g.hp) && IsField(Relaid(s, p), n, k)
    ensures k < |g.new_| && ValidTerm(Relaid(s, p), g.new_[k])
  {
    var o := p.own[n];
    assert PlacedAt(s, p, o);
    var j := o + (k - n);
    assert IsField(s.objs, o, j);
    FieldAtEnd(s, g, p, o, j);
    MovedValid(s, g, p, s.words[j], g.new_[k]);
  }

  lemma RelaidApart(s: Source, p: Progress, a: nat, b: nat)
    requires forall o: nat :: PlacedAt(s, p, o)
    ensures ApartAt(Relaid(s, p), a, b) && BelowAt(|p.own|, Relaid(s, p), a)
  {
    var objs := Relaid(s, p);
    if a in objs {
      assert PlacedAt(s, p, p.own[a]);
    }
  }

  lemma RelaidHeader(s: Source, g: Gc, p: Progress, n: nat)
    requires Collectable(s) && Inv(s, g, p, g.hp)
    ensures HasHeader(g.new_, Relaid(s, p), n)
  {
    if n in Relaid(s, p) {
      var o := p.own[n];
      assert PlacedAt(s, p, o) && FilledAt(s, g, p, g.hp, n) && HasHeader(s.words, s.objs, o);
    }
  }

  lemma RelaidLayout(s: Source, g: Gc, p: Progress)
    requires Collectable(s) && Inv(s, g, p, g.hp)
    ensures Layout(g.new_, g.hp, Relaid(s, p))
  {
    var objs := Relaid(s, p);
    forall a: nat, b: nat
      ensures ApartAt(objs, a, b)
    {
      RelaidApart(s, p, a, b);
    }
    forall a: nat
      ensures BelowAt(g.hp, objs, a) && HasHeader(g.new_, objs, a)
    {
      RelaidApart(s, p, a, a);
      RelaidHeader(s, g, p, a);
    }
    forall n: nat, k: nat | IsField(objs, n, k)
      ensures k < |g.new_| && ValidTerm(objs, g.new_[k])
    {
      RelaidField(s, g, p, n, k);
    }
  }

  // A collection never leaves its spaces; the new heap is isomorphic to the
  // live part of the old one, is well laid out, and is exactly as large as
  // the data that was live.
  lemma CollectIsIsomorphism(a: Snapshot, to: Space) returns (b: Snapshot, fwd: map<nat, nat>)
    requires a.Valid() && |to| == |a.words| && Roomy(|a.words|, a.objs, a.Live())
    ensures var r := Collect(a.words, to, a.roots);
            && r.Swept? && |b.words| == |a.words|
            && b.words == r.g.new_ && b.hp == r.g.hp && b.roots == r.roots
    ensures b.Valid() && Isomorphism(a, b, fwd)
    ensures b.hp == a.LiveSize() <= a.hp
  {
    LiveIsLeastClosed(a.words, a.hp, a.objs, a.roots);
    var s := Source(a.words, a.hp, a.objs, a.Live());
    var g, p, roots' := Run(s, to, a.roots);
    EverythingLiveIsCopied(s, g, p, a.roots, roots');
    b, fwd := Snapshot(g.new_, g.hp, Relaid(s, p), roots'), p.fwd;
    Finish(a, s, g, p, b);
    WordsBounds(a.hp, a.objs, s.live, s.live);
  }

  lemma Run(s: Source, to: Space, roots: seq<Word>) returns (g: Gc, p: Progress, roots': seq<Word>)
    requires Collectable(s) && |to| == |s.words|
    requires forall i :: 0 <= i < |roots| ==> RootOk(s, roots[i])
    ensures Collect(s.words, to, roots) == Swept(g, roots')
    ensures Inv(s, g, p, g.hp) && |roots'| == |roots|
    ensures forall i :: 0 <= i < |roots| ==> Moved(p.fwd, roots[i], roots'[i])
  {
    Begin(s, to);
    var p1 := RootsKeep(s, Gc(s.words, to, 0), Progress(map[], []), roots, 0);
    var r := CopyRoots(Gc(s.words, to, 0), roots, 0);
    assert OwnedAt(s, p1, 0);
    g, p := ScanKeeps(s, r.g, p1, 0);
    roots' := r.roots;
    forall i | 0 <= i < |roots|
      ensures Moved(p.fwd, roots[i], roots'[i])
    {
      MovedGrows(p1, p, roots[i], roots'[i]);
    }
  }

  lemma Finish(a: Snapshot, s: Source, g: Gc, p: Progress, b: Snapshot)
    requires Collectable(s) && Inv(s, g, p, g.hp)
    requires s == Source(a.words, a.hp, a.objs, a.Live()) && p.fwd.Keys == s.live
    requires b.words == g.new_ && b.hp == g.hp && b.objs == Relaid(s, p) && |b.roots| == |a.roots|
    requires forall i :: 0 <= i < |a.roots| ==> ValidTerm(a.objs, a.roots[i]) && Moved(p.fwd, a.roots[i], b.roots[i])
    ensures Isomorphism(a, b, p.fwd)
    ensures b.Valid()
  {
    RelaidLayout(s, g, p);
    ForwardingIsInjective(s, p);
    RelaidKeys(s, p);
    forall o: nat
      ensures ObjMoved(a, b, p.fwd, o)
    {
      if o in p.fwd {
        assert PlacedAt(s, p, o);
        RelaidAt(s, p, o);
      }
    }
    forall o: nat, k: nat
      ensures FieldMoved(a, b, p.fwd, o, k)
    {
      if o in p.fwd && IsField(s.objs, o, k) {
        FieldAtEnd(s, g, p, o, k);
      }
    }
    forall i | 0 <= i < |b.roots|
      ensures ValidTerm(b.objs, b.roots[i])
    {
      MovedValid(s, g, p, a.roots[i], b.roots[i]);
    }
  }

  lemma MovedValid(s: Source, g: Gc, p: Progress, w: Word, w': Word)
    requires Collectable(s) && Inv(s, g, p, g.hp) && ValidTerm(s.objs, w) && Moved(p.fwd, w, w')
    ensures ValidTerm(Relaid(s, p), w')
  {
    if IsPointer(w) {
      assert PlacedAt(s, p, Offset(w));
      RelaidAt(s, p, Offset(w));
    }
  }

  // What the first copy of an object leaves behind and what later ones find:
  // the marker 0xDEAD0002 and the new offset in the first two words.
  lemma ForwardingIsLeft(g: Gc, t: Word)
    requires IsPointer(t) && Offset(t) + 1 < |g.old_|
    requires g.old_[Offset(t)] != 0xDEAD_0002
    requires IsBoxed(t) ==> g.old_[Offset(t)] % 64 == 0
    requires var n := if IsCons(t) then 2 else 1 + g.old_[Offset(t)] / 64;
             Offset(t) + n <= |g.old_| && g.hp + n <= |g.new_|
    ensures var r, o := CopyTerm(g, t), Offset(t);
            && r.Copied? && r.term == t % 16 + 16 * g.hp
            && r.g.old_ == g.old_[o := 0xDEAD_0002][o + 1 := g.hp]
            && r.g.hp == g.hp + (if IsCons(t) then 2 else 1 + g.old_[o] / 64)
            && r.g.new_[g.hp..r.g.hp] == g.old_[o..o + (r.g.hp - g.hp)]
            && CopyTerm(r.g, t) == Copied(r.g, r.term)
  {
  }
}
