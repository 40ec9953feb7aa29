// The semi-space heap (mb_heap.h, mb_heap.c), in place on two word arrays
// that swap roles.
module Heap {
  import opened Term
  import opened Cheney
  import opened HeapModel

  class SemiSpace {
    const spaceA: array<Word>
    const spaceB: array<Word>
    var from: array<Word>
    var to: array<Word>
    var hp: nat
    const capacity: nat
    var gcCount: nat

    ghost predicate Valid()
      reads this
    {
      && spaceA != spaceB
      && capacity == spaceA.Length == spaceB.Length <= MAX_SPACE
      && ((from == spaceA && to == spaceB) || (from == spaceB && to == spaceA))
      && hp <= capacity
      && gcCount < WORD_LIMIT
    }

    ghost function Model(): (m: HeapValue)
      reads this, spaceA, spaceB
      requires Valid()
      ensures m.Valid()
    {
      HeapValue(from[..], to[..], hp, gcCount)
    }

    // A fresh heap with memory already cleared, as mb_heap_init leaves it.
    constructor (capacity: nat)
      requires capacity <= MAX_SPACE
      ensures Valid() && fresh(spaceA) && fresh(spaceB) && Model() == EmptyHeap(capacity)
    {
      this.capacity := capacity;
      var a := new Word[capacity](_ => 0);
      var b := new Word[capacity](_ => 0);
      spaceA, spaceB, from, to := a, b, a, b;
      hp, gcCount := 0, 0;
      new;
      assert from[..] == Zeros(capacity) && to[..] == Zeros(capacity);
    }

    // mb_heap_init.
    method Init()
      requires Valid()
      modifies this`from, this`to, this`hp, this`gcCount, spaceA, spaceB
      ensures Valid() && Model() == EmptyHeap(capacity)
    {
      Clear(spaceA);
      Clear(spaceB);
      from, to := spaceA, spaceB;
      hp, gcCount := 0, 0;
    }

    static method Clear(a: array<Word>)
      modifies a
      ensures a[..] == Zeros(a.Length)
    {
      forall i | 0 <= i < a.Length {
        a[i] := 0;
      }
    }

    method Alloc(n: nat) returns (ok: bool, offset: nat)
      requires Valid()
      modifies this`hp
      ensures Valid() && offset == old(hp)
      ensures ok == HasRoom(old(Model()), n)
      ensures hp == if ok then old(hp) + n else old(hp)
    {
      offset := hp;
      if hp + n > capacity {
        return false, offset;
      }
      hp := hp + n;
      ok := true;
    }

    method StoreElements(elems: seq<Word>, at: nat)
      requires Valid() && at + |elems| <= from.Length
      modifies from
      ensures from[..] == old(from[..])[..at] + elems + old(from[..])[at + |elems|..]
    {
      for i := 0 to |elems|
        invariant forall k :: 0 <= k < i ==> from[at + k] == elems[k]
        invariant forall k :: 0 <= k < from.Length && !(at <= k < at + i) ==> from[k] == old(from[k])
      {
        from[at + i] := elems[i];
      }
    }

    // A header, and the elements behind it.
    static lemma HeaderFirst(a: seq<Word>, at: nat, header: Word, elems: seq<Word>)
      requires at + 1 + |elems| <= |a|
      ensures var b := a[at := header];
              b[..at + 1] + elems + b[at + 1 + |elems|..] == a[..at] + ([header] + elems) + a[at + (1 + |elems|)..]
    {
    }

    method MakeTuple(elems: seq<Word>) returns (t: Word)
      requires Valid()
      modifies this`hp, spaceA, spaceB
      ensures Valid() && (Model(), t) == HeapModel.MakeTuple(old(Model()), elems)
    {
      var ok, offset := Alloc(1 + |elems|);
      if !ok {
        return 0;
      }
      HeaderFirst(from[..], offset, TupleHeader(|elems|), elems);
      from[offset] := TupleHeader(|elems|);
      StoreElements(elems, offset + 1);
      return MakeBoxed(offset);
    }

    method Cons(head: Word, tail: Word) returns (t: Word)
      requires Valid()
      modifies this`hp, spaceA, spaceB
      ensures Valid() && (Model(), t) == HeapModel.Cons(old(Model()), head, tail)
    {
      var ok, offset := Alloc(2);
      if !ok {
        return 0;
      }
      from[offset] := head;
      from[offset + 1] := tail;
      assert from[..] == old(from[..offset]) + [head, tail] + old(from[offset + 2..]);
      return MakeCons(offset);
    }

    // The collection in progress: old space, new space, allocation pointer.
    ghost function Progress(old_: array<Word>): Gc
      reads this, from, old_
      requires from.Length <= MAX_SPACE && old_.Length <= MAX_SPACE
    {
      Gc(old_[..], from[..], hp)
    }

    // memcpy
    method CopyBlock(old_: array<Word>, off: nat, size: nat)
      requires Valid() && old_ == to && off + size <= old_.Length && hp + size <= from.Length
      modifies from
      ensures from[..] == old(from[..hp]) + old_[off..off + size] + old(from[hp + size..])
    {
      forall i | 0 <= i < size {
        from[hp + i] := old_[off + i];
      }
    }

    method Forward(old_: array<Word>, off: nat, size: nat)
      requires Valid() && old_ == to
      requires off + size <= old_.Length && off + 1 < old_.Length && hp + size <= from.Length
      modifies this`hp, spaceA, spaceB
      ensures Valid() && Progress(old_) == Cheney.Forward(old(Progress(old_)), off, size)
    {
      CopyBlock(old_, off, size);
      old_[off] := MOVED;
      old_[off + 1] := hp;
      assert old_[..] == old(old_[..])[off := MOVED][off + 1 := hp];
      hp := hp + size;
    }

    // mb_gc_copy_term, by the tag of the term.
    method CopyTerm(old_: array<Word>, term: Word) returns (t: Word)
      requires Valid() && old_ == to
      requires Cheney.CopyTerm(Progress(old_), term).Copied?
      modifies this`hp, spaceA, spaceB
      ensures Valid()
      ensures Copied(Progress(old_), t) == Cheney.CopyTerm(old(Progress(old_)), term)
    {
      if IsImmediate(term) || term == 0 {
        t := term;
      } else if IsBoxed(term) {
        t := CopyBoxed(old_, term);
      } else if IsCons(term) {
        t := CopyCons(old_, term);
      } else {
        t := term;
      }
    }

    method CopyBoxed(old_: array<Word>, term: Word) returns (t: Word)
      requires Valid() && old_ == to && IsBoxed(term)
      requires Cheney.CopyTerm(Progress(old_), term).Copied?
      modifies this`hp, spaceA, spaceB
      ensures Valid()
      ensures Copied(Progress(old_), t) == Cheney.CopyTerm(old(Progress(old_)), term)
    {
      var off := Offset(term);
      if old_[off] == MOVED {
        return MakeBoxed(old_[off + 1]);
      }
      var header := old_[off];
      if !IsTupleHeader(header) {
        return term;
      }
      t := MakeBoxed(hp);
      Forward(old_, off, 1 + TupleArity(header));
    }

    method CopyCons(old_: array<Word>, term: Word) returns (t: Word)
      requires Valid() && old_ == to && IsCons(term)
      requires Cheney.CopyTerm(Progress(old_), term).Copied?
      modifies this`hp, spaceA, spaceB
      ensures Valid()
      ensures Copied(Progress(old_), t) == Cheney.CopyTerm(old(Progress(old_)), term)
    {
      var off := Offset(term);
      if old_[off] == MOVED {
        return MakeCons(old_[off + 1]);
      }
      t := MakeCons(hp);
      Forward(old_, off, 2);
    }

    method CopyWord(old_: array<Word>, scan: nat)
      requires Valid() && old_ == to
      requires Cheney.CopyWord(Progress(old_), scan).Copied?
      modifies this`hp, spaceA, spaceB
      ensures Valid() && Progress(old_) == Cheney.CopyWord(old(Progress(old_)), scan).g
    {
      var t := CopyTerm(old_, from[scan]);
      from[scan] := t;
    }

    // mb_heap_gc.  The roots are the cells of one array, hence distinct.
    method Collect(roots: array<Word>)
      requires Valid() && roots != spaceA && roots != spaceB
      requires HeapModel.Collect(Model(), roots[..]).Collected?
      modifies this`from, this`to, this`hp, this`gcCount, spaceA, spaceB, roots
      ensures Valid()
      ensures Collected(Model(), roots[..]) == HeapModel.Collect(old(Model()), old(roots[..]))
    {
      ghost var r, c := CollectParts(Model(), roots[..]);
      Evacuate(roots, r, c);
      Clear(to);
      gcCount := (gcCount + 1) % WORD_LIMIT;
    }

    // The collection up to the clearing of the old space.
    method Evacuate(roots: array<Word>, ghost r: Swept, ghost c: Copy)
      requires Valid() && roots != spaceA && roots != spaceB
      requires r == Cheney.CopyRoots(Gc(from[..], to[..], 0), roots[..], 0) && r.Swept?
      requires c == Scan(r.g, 0) && c.Copied?
      modifies this`from, this`to, this`hp, spaceA, spaceB, roots
      ensures Valid() && from == old(to) && to == old(from)
      ensures from[..] == c.g.new_ && hp == c.g.hp && roots[..] == r.roots
    {
      Flip();
      CopyRoots(to, roots, r);
      ScanAll(to, c);
    }

    static lemma CollectParts(h: HeapValue, roots: seq<Word>) returns (r: Swept, c: Copy)
      requires HeapModel.Collect(h, roots).Collected?
      ensures r == Cheney.CopyRoots(Gc(h.from, h.to, 0), roots, 0) && r.Swept?
      ensures c == Scan(r.g, 0) && c.Copied? && |c.g.new_| == |h.to|
      ensures HeapModel.Collect(h, roots) ==
                Collected(HeapValue(c.g.new_, Zeros(|h.from|), c.g.hp, (h.gcCount + 1) % WORD_LIMIT), r.roots)
    {
      r := Cheney.CopyRoots(Gc(h.from, h.to, 0), roots, 0);
      c := Scan(r.g, 0);
    }

    // Swap the spaces; the new one is empty.
    method Flip()
      requires Valid()
      modifies this`from, this`to, this`hp
      ensures Valid() && from == old(to) && to == old(from) && hp == 0
    {
      from, to := to, from;
      hp := 0;
    }

    method CopyRoots(old_: array<Word>, roots: array<Word>, ghost r: Swept)
      requires Valid() && old_ == to && roots != spaceA && roots != spaceB
      requires r == Cheney.CopyRoots(Progress(old_), roots[..], 0) && r.Swept?
      modifies this`hp, spaceA, spaceB, roots
      ensures Valid() && Progress(old_) == r.g && roots[..] == r.roots
    {
      for i := 0 to roots.Length
        invariant Valid()
        invariant r == Cheney.CopyRoots(Progress(old_), roots[..], i)
      {
        ghost var before := roots[..];
        var t := CopyTerm(old_, roots[i]);
        roots[i] := t;
        assert roots[..] == before[i := t];
      }
    }

    // The elements of one tuple.
    method ScanTuple(old_: array<Word>, scan: nat, arity: nat)
      requires Valid() && old_ == to
      requires ScanElements(Progress(old_), scan, arity).Copied?
      modifies this`hp, spaceA, spaceB
      ensures Valid() && Copied(Progress(old_), 0) == ScanElements(old(Progress(old_)), scan, arity)
    {
      for j := 0 to arity
        invariant Valid()
        invariant ScanElements(Progress(old_), scan + j, arity - j) == ScanElements(old(Progress(old_)), scan, arity)
      {
        CopyWord(old_, scan + j);
      }
    }

    method ScanAll(old_: array<Word>, ghost c: Copy)
      requires Valid() && old_ == to
      requires c == Scan(Progress(old_), 0) && c.Copied?
      modifies this`hp, spaceA, spaceB
      ensures Valid() && Progress(old_) == c.g
    {
      var scan := 0;
      while scan < hp
        invariant Valid()
        invariant c == Scan(Progress(old_), scan)
        decreases from.Length - scan
      {
        scan := ScanOnce(old_, scan);
      }
    }

    // One round of the outer loop.
    method ScanOnce(old_: array<Word>, scan: nat) returns (next: nat)
      requires Valid() && old_ == to && scan < from.Length
      requires ScanRound(Progress(old_), scan).Next?
      modifies this`hp, spaceA, spaceB
      ensures Valid() && Next(Progress(old_), next) == ScanRound(old(Progress(old_)), scan)
    {
      var w := from[scan];
      if IsTupleHeader(w) {
        ScanTuple(old_, scan + 1, TupleArity(w));
        return scan + 1 + TupleArity(w);
      }
      CopyWord(old_, scan);
      return scan + 1;
    }
  }
}
