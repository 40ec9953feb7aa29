// The heap operations of mb_heap.c on values, and what allocation means for
// the object graph.
module HeapModel {
  import opened Term
  import opened Graph
  import opened Cheney

  datatype HeapValue = HeapValue(from: Space, to: Space, hp: nat, gcCount: nat) {
    ghost predicate Valid() { hp <= |from| == |to| }
  }

  datatype Collected = Crashed | Collected(heap: HeapValue, roots: seq<Word>)

  function Zeros(n: nat): (s: seq<Word>)
    ensures |s| == n && forall i :: 0 <= i < n ==> s[i] == 0
  {
    seq(n, _ => 0)
  }

  function EmptyHeap(capacity: nat): (h: HeapValue)
    requires capacity <= MAX_SPACE
  {
    HeapValue(Zeros(capacity), Zeros(capacity), 0, 0)
  }

  // Write ws at the allocation pointer; the heap is unchanged when they do not fit.
  function Place(h: HeapValue, ws: seq<Word>): (h': HeapValue)
    ensures |h'.from| == |h.from| && h'.to == h.to && (h.hp <= |h.from| ==> h'.hp <= |h'.from|)
  {
    if h.hp + |ws| <= |h.from|
    then h.(from := h.from[..h.hp] + ws + h.from[h.hp + |ws|..], hp := h.hp + |ws|)
    else h
  }

  predicate HasRoom(h: HeapValue, n: nat) { h.hp + n <= |h.from| }

  // The word 0 reports that there was no room.
  function MakeTuple(h: HeapValue, elems: seq<Word>): (HeapValue, Word) {
    if HasRoom(h, 1 + |elems|)
    then (Place(h, [TupleHeader(|elems|)] + elems), MakeBoxed(h.hp))
    else (h, 0)
  }

  function Cons(h: HeapValue, head: Word, tail: Word): (HeapValue, Word) {
    if HasRoom(h, 2) then (Place(h, [head, tail]), MakeCons(h.hp)) else (h, 0)
  }

  function Collect(h: HeapValue, roots: seq<Word>): (c: Collected)
    ensures c.Collected? && h.Valid() ==> c.heap.Valid() && |c.heap.from| == |h.from|
    ensures c.Collected? ==> |c.roots| == |roots|
  {
    var r := Cheney.Collect(h.from, h.to, roots);
    if r.Lost? then Crashed
    else Collected(HeapValue(r.g.new_, Zeros(|h.from|), r.g.hp, (h.gcCount + 1) % WORD_LIMIT), r.roots)
  }

  // ---- allocation on the object graph ----

  // The words below the old allocation pointer stay, and the new object is
  // laid out above them.
  lemma PlaceObject(h: HeapValue, objs: Objects, ws: seq<Word>, obj: Obj)
    requires h.Valid() && Layout(h.from, h.hp, objs) && HasRoom(h, |ws|)
    requires |ws| == obj.Size() && (obj.Tuple? ==> ws[0] == TupleHeader(obj.arity) && obj.arity <= 0xFFFF)
    requires forall i :: (if obj.Tuple? then 1 else 0) <= i < |ws| ==> ValidTerm(objs, ws[i])
    ensures h.hp !in objs
    ensures Layout(Place(h, ws).from, Place(h, ws).hp, objs[h.hp := obj])
    ensures Place(h, ws).from[..h.hp] == h.from[..h.hp]
    ensures Place(h, ws).from[h.hp..h.hp + |ws|] == ws
  {
    var h', objs' := Place(h, ws), objs[h.hp := obj];
    assert BelowAt(h.hp, objs, h.hp);
    forall o: nat, k: nat
      ensures ApartAt(objs', o, k)
    {
      assert BelowAt(h.hp, objs, o) && BelowAt(h.hp, objs, k) && ApartAt(objs, o, k);
    }
    forall o: nat
      ensures BelowAt(h'.hp, objs', o) && HasHeader(h'.from, objs', o)
    {
      assert BelowAt(h.hp, objs, o) && HasHeader(h.from, objs, o);
    }
    forall o: nat, k: nat | IsField(objs', o, k)
      ensures k < |h'.from| && ValidTerm(objs', h'.from[k])
    {
      if o == h.hp {
        assert h'.from[k] == ws[k - h.hp];
        StaysValid(h.hp, objs, obj, ws[k - h.hp]);
      } else {
        assert IsField(objs, o, k) && BelowAt(h.hp, objs, o);
        StaysValid(h.hp, objs, obj, h.from[k]);
      }
    }
  }

  lemma StaysValid(hp: nat, objs: Objects, obj: Obj, w: Word)
    requires hp !in objs && ValidTerm(objs, w)
    ensures ValidTerm(objs[hp := obj], w)
  {
  }

  // Allocation does not change what a valid term stands for.
  lemma {:induction false} PlaceKeepsTrees(h: HeapValue, objs: Objects, words': seq<Word>, obj: Obj, w: Word, t: Tree)
    requires h.Valid() && Layout(h.from, h.hp, objs) && h.hp !in objs
    requires |words'| == |h.from| && words'[..h.hp] == h.from[..h.hp]
    requires ValidTerm(objs, w) && Denotes(h.from, objs, w, t)
    ensures Denotes(words', objs[h.hp := obj], w, t)
    decreases t
  {
    if IsPointer(w) {
      var o := Offset(w);
      assert BelowAt(h.hp, objs, o);
      if t.ConsT? {
        assert IsField(objs, o, o) && IsField(objs, o, o + 1);
        SamePrefix(h.from, words', h.hp, o);
        SamePrefix(h.from, words', h.hp, o + 1);
        PlaceKeepsTrees(h, objs, words', obj, h.from[o], t.head);
        PlaceKeepsTrees(h, objs, words', obj, h.from[o + 1], t.tail);
      } else {
        forall i | 0 <= i < |t.elems|
          ensures Denotes(words', objs[h.hp := obj], words'[o + 1 + i], t.elems[i])
        {
          assert IsField(objs, o, o + 1 + i);
          SamePrefix(h.from, words', h.hp, o + 1 + i);
          PlaceKeepsTrees(h, objs, words', obj, h.from[o + 1 + i], t.elems[i]);
        }
      }
    }
  }

  lemma SamePrefix(a: seq<Word>, b: seq<Word>, n: nat, k: nat)
    requires |a| == |b| && n <= |a| && a[..n] == b[..n] && k < n
    ensures a[k] == b[k]
  {
    assert a[k] == a[..n][k] && b[k] == b[..n][k];
  }
}
