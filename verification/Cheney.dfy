// What mb_gc_copy_term and mb_heap_gc compute, on values (mb_heap.c:63-168).
//
// A collection works on two equally long word arrays.  Any access outside an
// array is undefined behaviour in the program; here it makes the result Stuck.
module Cheney {
  import opened Term

  datatype Gc = Gc(old_: Space, new_: Space, hp: nat)

  datatype Copy = Stuck | Copied(g: Gc, term: Word)

  datatype Round = Broken | Next(g: Gc, scan: nat)

  datatype Swept = Lost | Swept(g: Gc, roots: seq<Word>)

  // The arrays keep their lengths and the allocation pointer stays inside.
  predicate SameSpaces(g: Gc, g': Gc) {
    && |g'.old_| == |g.old_| && |g'.new_| == |g.new_|
    && (g.hp <= |g.new_| ==> g'.hp <= |g'.new_|)
  }

  // memcpy the object to the allocation pointer and leave a forwarding pointer.
  function Forward(g: Gc, off: nat, size: nat): Gc
    requires off + size <= |g.old_| && off + 1 < |g.old_| && g.hp + size <= |g.new_|
  {
    Gc(g.old_[off := MOVED][off + 1 := g.hp],
       g.new_[..g.hp] + g.old_[off..off + size] + g.new_[g.hp + size..],
       g.hp + size)
  }

  function Relocate(g: Gc, off: nat, size: nat, term: Word): (r: Copy)
    ensures r.Copied? ==> SameSpaces(g, r.g)
  {
    if off + size <= |g.old_| && off + 1 < |g.old_| && g.hp + size <= |g.new_|
    then Copied(Forward(g, off, size), term)
    else Stuck
  }

  function CopyTerm(g: Gc, t: Word): (r: Copy)
    ensures r.Copied? ==> SameSpaces(g, r.g)
  {
    if IsImmediate(t) || t == 0 then
      Copied(g, t)
    else if IsBoxed(t) then
      var off := Offset(t);
      if off >= |g.old_| then Stuck
      else if g.old_[off] == MOVED then
        if off + 1 < |g.old_| then Copied(g, MakeBoxed(g.old_[off + 1])) else Stuck
      else if !IsTupleHeader(g.old_[off]) then Copied(g, t)
      else Relocate(g, off, 1 + TupleArity(g.old_[off]), MakeBoxed(g.hp))
    else if IsCons(t) then
      var off := Offset(t);
      if off >= |g.old_| then Stuck
      else if g.old_[off] == MOVED then
        if off + 1 < |g.old_| then Copied(g, MakeCons(g.old_[off + 1])) else Stuck
      else Relocate(g, off, 2, MakeCons(g.hp))
    else
      Copied(g, t)
  }

  // Phase 1: the roots from index i on, each overwritten by its copy.
  function CopyRoots(g: Gc, roots: seq<Word>, i: nat): (r: Swept)
    requires i <= |roots|
    ensures r.Swept? ==> SameSpaces(g, r.g) && |r.roots| == |roots|
    decreases |roots| - i
  {
    if i == |roots| then Swept(g, roots) else
      var c := CopyTerm(g, roots[i]);
      if c.Stuck? then Lost else CopyRoots(c.g, roots[i := c.term], i + 1)
  }

  // Replace the word at scan by its copy.
  function CopyWord(g: Gc, scan: nat): (r: Copy)
    ensures r.Copied? ==> SameSpaces(g, r.g)
  {
    if scan >= |g.new_| then Stuck else
      var c := CopyTerm(g, g.new_[scan]);
      if c.Stuck? then Stuck
      else Copied(c.g.(new_ := c.g.new_[scan := c.term]), c.term)
  }

  // The inner loop over the n elements of a tuple that start at scan.
  function ScanElements(g: Gc, scan: nat, n: nat): (r: Copy)
    ensures r.Copied? ==> SameSpaces(g, r.g)
    decreases n
  {
    if n == 0 then Copied(g, 0) else
      var c := CopyWord(g, scan);
      if c.Stuck? then Stuck else ScanElements(c.g, scan + 1, n - 1)
  }

  // One round of the outer loop, which copies the word at scan, or the
  // elements of a tuple when that word has the header pattern.
  function ScanRound(g: Gc, scan: nat): (r: Round)
    requires scan < |g.new_|
    ensures r.Next? ==> r.scan > scan && SameSpaces(g, r.g)
  {
    var w := g.new_[scan];
    if IsTupleHeader(w) then
      var c := ScanElements(g, scan + 1, TupleArity(w));
      if c.Stuck? then Broken else Next(c.g, scan + 1 + TupleArity(w))
    else
      var c := CopyWord(g, scan);
      if c.Stuck? then Broken else Next(c.g, scan + 1)
  }

  // Phase 2: rounds until the scan meets the allocation pointer.
  function Scan(g: Gc, scan: nat): (r: Copy)
    ensures r.Copied? ==> SameSpaces(g, r.g)
    decreases |g.new_| - scan
  {
    if scan >= g.hp then Copied(g, 0)
    else if scan >= |g.new_| then Stuck
    else
      var r := ScanRound(g, scan);
      if r.Broken? then Stuck else Scan(r.g, r.scan)
  }

  // mb_heap_gc up to the final clearing of the old space.
  function Collect(from: Space, to: Space, roots: seq<Word>): (r: Swept)
    ensures r.Swept? ==> |r.g.new_| == |to| && r.g.hp <= |to| && |r.roots| == |roots|
  {
    var r := CopyRoots(Gc(from, to, 0), roots, 0);
    if r.Lost? then Lost else
      var c := Scan(r.g, 0);
      if c.Stuck? then Lost else Swept(c.g, r.roots)
  }
}
