// Tagged 32-bit terms (mb_term.h).  The tag sits in the low four bits; the
// remaining 28 bits are a signed integer, an index or a heap word offset.
module Term {

  const WORD_LIMIT := 0x1_0000_0000
  const PAYLOAD_LIMIT := 0x1000_0000
  const SMALLINT_MIN := -0x800_0000
  const SMALLINT_MAX := 0x7FF_FFFF

  // The forwarding marker left in the first word of a moved object.
  const MOVED: Word := 0xDEAD_0002

  // Read as a boxed pointer, MOVED carries this offset; a semi-space that is
  // no longer than this can never produce it as the tag of a real object.
  const MAX_SPACE := 0x0DEA_D000

  type Word = w: int | 0 <= w < 0x1_0000_0000

  // A semi-space.
  type Space = s: seq<Word> | |s| <= MAX_SPACE witness []

  predicate IsSmallint(t: Word) { t % 16 == 0xF }

  predicate IsAtom(t: Word) { t % 16 == 0xB }

  predicate IsPid(t: Word) { t % 16 == 0x3 }

  predicate IsBoxed(t: Word) { t % 16 == 0x2 }

  predicate IsCons(t: Word) { t % 16 == 0x1 }

  predicate IsImmediate(t: Word) { IsSmallint(t) || IsAtom(t) || IsPid(t) }

  predicate IsPointer(t: Word) { IsBoxed(t) || IsCons(t) }

  // ((int32_t)v << 4) | 0xF: all but the low 28 bits of v are lost.
  function MakeSmallint(v: int): Word { v % PAYLOAD_LIMIT * 16 + 0xF }

  // (int32_t)t >> 4, an arithmetic shift, applied to a word of any tag.
  function GetSmallint(t: Word): (v: int)
    ensures SMALLINT_MIN <= v <= SMALLINT_MAX
  {
    if t / 16 < 0x800_0000 then t / 16 else t / 16 - PAYLOAD_LIMIT
  }

  function MakePid(p: nat): Word { p % PAYLOAD_LIMIT * 16 + 0x3 }

  function MakeBoxed(off: nat): Word { off % PAYLOAD_LIMIT * 16 + 0x2 }

  function MakeCons(off: nat): Word { off % PAYLOAD_LIMIT * 16 + 0x1 }

  function Offset(t: Word): nat { t / 16 }

  function TupleHeader(arity: nat): Word { arity * 64 % WORD_LIMIT }

  function TupleArity(header: Word): nat { header / 64 }

  predicate IsTupleHeader(w: Word) { w % 64 == 0 }

  // The value of v in 28-bit two's complement.
  function Signed28(v: int): (r: int)
    ensures SMALLINT_MIN <= r <= SMALLINT_MAX
    ensures (r - v) % PAYLOAD_LIMIT == 0
    ensures SMALLINT_MIN <= v <= SMALLINT_MAX <==> r == v
  {
    if v % PAYLOAD_LIMIT < 0x800_0000 then v % PAYLOAD_LIMIT else v % PAYLOAD_LIMIT - PAYLOAD_LIMIT
  }

  lemma SmallintRoundTrip(v: int)
    ensures IsSmallint(MakeSmallint(v))
    ensures GetSmallint(MakeSmallint(v)) == Signed28(v)
  {
  }

  // Retagging what was untagged gives back the same word.
  lemma SmallintCanonical(t: Word)
    requires IsSmallint(t)
    ensures MakeSmallint(GetSmallint(t)) == t
  {
  }

  // A machine addition or subtraction of two smallints is exact modulo 2^28,
  // and exact outright when the result is in range.
  lemma SmallintArithmetic(a: Word, b: Word)
    ensures GetSmallint(MakeSmallint(GetSmallint(a) + GetSmallint(b))) == Signed28(GetSmallint(a) + GetSmallint(b))
    ensures GetSmallint(MakeSmallint(GetSmallint(a) - GetSmallint(b))) == Signed28(GetSmallint(a) - GetSmallint(b))
  {
    SmallintRoundTrip(GetSmallint(a) + GetSmallint(b));
    SmallintRoundTrip(GetSmallint(a) - GetSmallint(b));
  }

  lemma PointerRoundTrip(off: nat)
    requires off < PAYLOAD_LIMIT
    ensures IsBoxed(MakeBoxed(off)) && Offset(MakeBoxed(off)) == off
    ensures IsCons(MakeCons(off)) && Offset(MakeCons(off)) == off
  {
  }
}
