// Where a collection puts the objects its roots point to: the first root to
// reach an object moves it behind everything that earlier roots reached.
module Landing {
  import opened Term
  import opened Cheney
  import opened Graph
  import opened Collector

  // The objects the roots from i up to j point to.
  function TargetsBetween(roots: seq<Word>, i: nat, j: nat): (s: set<nat>)
    requires j <= |roots|
    ensures forall o :: o in s <==> exists k :: i <= k < j && PointsAt(roots, k, o)
  {
    set k: nat | k < j && i <= k && PointsAt(roots, k, Offset(roots[k])) :: Offset(roots[k])
  }

  predicate PointsAt(roots: seq<Word>, k: nat, o: nat) {
    k < |roots| && IsPointer(roots[k]) && Offset(roots[k]) == o
  }

  // The lowest root from i on that points to o, or the number of roots.
  function FirstRoot(roots: seq<Word>, o: nat, i: nat): (j: nat)
    requires i <= |roots|
    ensures i <= j <= |roots|
    ensures forall k :: i <= k < j ==> !PointsAt(roots, k, o)
    ensures j < |roots| ==> PointsAt(roots, j, o)
    decreases |roots| - i
  {
    if i == |roots| || PointsAt(roots, i, o) then i else FirstRoot(roots, o, i + 1)
  }

  // The offset at which the object at o will be, if a root points to it: the
  // total size of the objects that the roots before its first one point to.
  ghost function LandsAt(a: Snapshot, o: nat): nat {
    |Words(a.hp, a.objs, TargetsBetween(a.roots, 0, FirstRoot(a.roots, o, 0)))|
  }

  // r holds the roots from i on redirected by fwd, and the others unchanged.
  ghost predicate Redirected(fwd: map<nat, nat>, roots: seq<Word>, i: nat, r: seq<Word>) {
    && |r| == |roots|
    && (forall k :: 0 <= k < i && k < |roots| ==> r[k] == roots[k])
    && (forall k :: i <= k < |roots| ==> Moved(fwd, roots[k], r[k]))
  }

  ghost predicate RootsOk(s: Source, roots: seq<Word>, i: nat) { forall k :: i <= k < |roots| ==> RootOk(s, roots[k]) }

  // One root copied.
  lemma RootCopied(s: Source, g: Gc, p: Progress, roots: seq<Word>, i: nat, r: Swept)
      returns (q: Progress, g': Gc, roots': seq<Word>)
    requires Collectable(s) && Inv(s, g, p, 0) && i < |roots| && RootsOk(s, roots, i)
    requires r == CopyRoots(g, roots, i)
    ensures Inv(s, g', q, 0) && Grows(p, q) && RootsOk(s, roots', i + 1)
    ensures q == if IsPointer(roots[i]) && Offset(roots[i]) !in p.fwd then Extend(s, p, Offset(roots[i])) else p
    ensures |roots'| == |roots| && roots' == roots[i := roots'[i]] && Moved(q.fwd, roots[i], roots'[i])
    ensures r == CopyRoots(g', roots', i + 1)
  {
    q := CopyTermKeeps(s, g, p, 0, roots[i]);
    g', roots' := CopyTerm(g, roots[i]).g, roots[i := CopyTerm(g, roots[i]).term];
  }

  // What holds of the roots behind root i holds with root i before them.
  lemma Redirects(p: Progress, q: Progress, p': Progress, roots: seq<Word>, roots': seq<Word>, i: nat, r: seq<Word>)
    requires i < |roots| && |roots'| == |roots| && roots' == roots[i := roots'[i]] && Moved(q.fwd, roots[i], roots'[i])
    requires Grows(p, q) && Grows(q, p') && Redirected(p'.fwd, roots', i + 1, r)
    ensures Grows(p, p') && Redirected(p'.fwd, roots, i, r)
  {
    GrowsTransitive(p, q, p');
    MovedGrows(q, p', roots[i], roots'[i]);
    assert r[i] == roots'[i];
  }

  // Root j lands when it is its turn.
  lemma TurnLands(s: Source, g: Gc, p: Progress, roots: seq<Word>, j: nat, ts: set<nat>, r: Swept)
      returns (p': Progress)
    requires Collectable(s) && Inv(s, g, p, 0) && j < |roots| && RootsOk(s, roots, j)
    requires ts == p.fwd.Keys + TargetsBetween(roots, j, j)
    requires IsPointer(roots[j]) && Offset(roots[j]) !in ts && r == CopyRoots(g, roots, j)
    ensures r.Swept? && Inv(s, r.g, p', 0) && Redirected(p'.fwd, roots, j, r.roots)
    ensures Grows(p, p') && Offset(roots[j]) in p'.fwd && p'.fwd[Offset(roots[j])] == |Words(s.hp, s.objs, ts)|
  {
    var q, g', roots' := RootCopied(s, g, p, roots, j, r);
    p' := RootsKeep(s, g', q, roots', j + 1);
    Landed(s, g, p, q, p', roots, j);
    Redirects(p, q, p', roots, roots', j, r.roots);
  }

  // Root i, before it is the turn of root j.
  lemma TurnBefore(s: Source, g: Gc, p: Progress, roots: seq<Word>, i: nat, j: nat, ts: set<nat>, r: Swept)
      returns (q: Progress, g': Gc, roots': seq<Word>)
    requires Collectable(s) && Inv(s, g, p, 0) && i < j < |roots| && RootsOk(s, roots, i)
    requires ts == p.fwd.Keys + TargetsBetween(roots, i, j) && r == CopyRoots(g, roots, i)
    ensures Inv(s, g', q, 0) && Grows(p, q) && RootsOk(s, roots', i + 1)
    ensures |roots'| == |roots| && roots' == roots[i := roots'[i]] && Moved(q.fwd, roots[i], roots'[i])
    ensures ts == q.fwd.Keys + TargetsBetween(roots', i + 1, j) && r == CopyRoots(g', roots', i + 1)
    ensures roots'[j] == roots[j]
  {
    q, g', roots' := RootCopied(s, g, p, roots, i, r);
    SplitTargets(s, p, q, roots, roots', i, j);
  }

  // The first root j with its target, in a collection that has come to root
  // i; ts are the objects moved before it is its turn.
  lemma {:induction false} RootLands(
      s: Source, g: Gc, p: Progress, roots: seq<Word>, i: nat, j: nat, ts: set<nat>, r: Swept)
      returns (p': Progress)
    requires Collectable(s) && Inv(s, g, p, 0) && i <= j < |roots| && RootsOk(s, roots, i)
    requires ts == p.fwd.Keys + TargetsBetween(roots, i, j)
    requires IsPointer(roots[j]) && Offset(roots[j]) !in ts && r == CopyRoots(g, roots, i)
    ensures r.Swept? && Inv(s, r.g, p', 0) && Redirected(p'.fwd, roots, i, r.roots)
    ensures Grows(p, p') && Offset(roots[j]) in p'.fwd && p'.fwd[Offset(roots[j])] == |Words(s.hp, s.objs, ts)|
    decreases |roots| - i
  {
    if i == j {
      p' := TurnLands(s, g, p, roots, j, ts, r);
    } else {
      var next := i + 1;
      var q, g', roots' := TurnBefore(s, g, p, roots, i, j, ts, r);
      p' := RootLands(s, g', q, roots', next, j, ts, r);
      Redirects(p, q, p', roots, roots', i, r.roots);
    }
  }

  lemma Landed(s: Source, g: Gc, p: Progress, q: Progress, p': Progress, roots: seq<Word>, j: nat)
    requires Sizes(s, g, p, 0) && j < |roots| && Offset(roots[j]) !in p.fwd
    requires q == Extend(s, p, Offset(roots[j])) && Grows(q, p')
    ensures Offset(roots[j]) in p'.fwd
    ensures p'.fwd[Offset(roots[j])] == |Words(s.hp, s.objs, p.fwd.Keys + TargetsBetween(roots, j, j))|
  {
    assert TargetsBetween(roots, j, j) == {};
    assert p.fwd.Keys + {} == p.fwd.Keys;
    assert KeptAt(q, p', Offset(roots[j]));
  }

  lemma SplitTargets(s: Source, p: Progress, q: Progress, roots: seq<Word>, roots': seq<Word>, i: nat, j: nat)
    requires i < j <= |roots| == |roots'| && forall k :: i < k < |roots| ==> roots'[k] == roots[k]
    requires q == if IsPointer(roots[i]) && Offset(roots[i]) !in p.fwd then Extend(s, p, Offset(roots[i])) else p
    ensures q.fwd.Keys + TargetsBetween(roots', i + 1, j) == p.fwd.Keys + TargetsBetween(roots, i, j)
  {
    var first := if IsPointer(roots[i]) then {Offset(roots[i])} else {};
    assert q.fwd.Keys == p.fwd.Keys + first;
    forall o: nat
      ensures o in TargetsBetween(roots, i, j) <==> o in first || o in TargetsBetween(roots', i + 1, j)
    {
      if o in TargetsBetween(roots, i, j) {
        var k :| i <= k < j && PointsAt(roots, k, o);
        assert k == i || PointsAt(roots', k, o);
      }
      if o in TargetsBetween(roots', i + 1, j) {
        var k :| i + 1 <= k < j && PointsAt(roots', k, o);
        assert PointsAt(roots, k, o);
      }
      if o in first {
        assert PointsAt(roots, i, o);
      }
    }
  }

  // Every root that is a pointer comes out as a pointer of the same kind to
  // where its target lands.
  lemma RootsLand(a: Snapshot, to: Space, r: nat)
    requires a.Valid() && |to| == |a.words| && Roomy(|a.words|, a.objs, a.Live())
    requires r < |a.roots| && IsPointer(a.roots[r])
    ensures var c, n := Collect(a.words, to, a.roots), LandsAt(a, Offset(a.roots[r]));
            && c.Swept? && |c.roots| == |a.roots| && n < |a.words|
            && c.roots[r] == if IsBoxed(a.roots[r]) then MakeBoxed(n) else MakeCons(n)
  {
    LiveIsLeastClosed(a.words, a.hp, a.objs, a.roots);
    var s := Source(a.words, a.hp, a.objs, a.Live());
    var o := Offset(a.roots[r]);
    var j := FirstRoot(a.roots, o, 0);
    assert PointsAt(a.roots, r, o);
    Begin(s, to);
    var none := Progress(map[], []);
    assert none.fwd.Keys + TargetsBetween(a.roots, 0, j) == TargetsBetween(a.roots, 0, j);
    var p := RootLands(s, Gc(a.words, to, 0), none, a.roots, 0, j, TargetsBetween(a.roots, 0, j),
                       CopyRoots(Gc(s.words, to, 0), a.roots, 0));
    Lands(s, to, a.roots, p, r);
  }

  // What the roots phase decides, the scan keeps.
  lemma Lands(s: Source, to: Space, roots: seq<Word>, p: Progress, r: nat)
    requires Collectable(s) && |to| == |s.words| && r < |roots| && IsPointer(roots[r])
    requires var c := CopyRoots(Gc(s.words, to, 0), roots, 0);
             c.Swept? && Inv(s, c.g, p, 0) && Redirected(p.fwd, roots, 0, c.roots)
    ensures var c := Collect(s.words, to, roots);
            && c.Swept? && |c.roots| == |roots| && Offset(roots[r]) in p.fwd
            && var n := p.fwd[Offset(roots[r])];
               n < |s.words| && c.roots[r] == if IsBoxed(roots[r]) then MakeBoxed(n) else MakeCons(n)
  {
    var c := CopyRoots(Gc(s.words, to, 0), roots, 0);
    assert OwnedAt(s, p, 0) && PlacedAt(s, p, Offset(roots[r]));
    var g, p' := ScanKeeps(s, c.g, p, 0);
  }
}
