/**
 * Fixed-width integer views over a byte buffer (`imhotep::btree::Int<int_t>`).
 *
 * A view holds only the position `begin` of its first byte inside a buffer;
 * its value is whatever `int_t` those bytes encode.  The host layout is fixed
 * here as little-endian two's complement without padding: `Long` reads one
 * `int64_t` from bytes [begin, begin + 8), `LongPair` reads a
 * `std::pair<int64_t, int64_t>` whose `first` occupies [begin, begin + 8) and
 * whose `second` occupies [begin + 8, begin + 16).
 */
module BtreeInt {
  import opened Wrappers
  import opened Decimal
  import opened FixedWidth

  type Byte = x: int | 0 <= x < 256

  const LONG_LENGTH: nat := 8
  const LONG_PAIR_LENGTH: nat := 16
  function Pow256(k: nat): (p: nat)
    ensures p > 0
  {
    if k == 0 then 1 else 256 * Pow256(k - 1)
  }

  /** Unsigned little-endian value of `bs`. */
  function Unsigned(bs: seq<Byte>): (u: nat)
    ensures u < Pow256(|bs|)
  {
    if |bs| == 0 then 0 else bs[0] + 256 * Unsigned(bs[1..])
  }

  /** The `k` little-endian bytes of `u` modulo 256^k. */
  function UnsignedBytes(u: nat, k: nat): (bs: seq<Byte>)
    ensures |bs| == k
  {
    if k == 0 then [] else [u % 256] + UnsignedBytes(u / 256, k - 1)
  }

  lemma {:induction false} UnsignedBytesRoundTrip(u: nat, k: nat)
    requires u < Pow256(k)
    ensures Unsigned(UnsignedBytes(u, k)) == u
  {
    if k > 0 {
      var bs := UnsignedBytes(u, k);
      assert bs[1..] == UnsignedBytes(u / 256, k - 1);
      UnsignedBytesRoundTrip(u / 256, k - 1);
    }
  }

  lemma {:induction false} UnsignedRoundTrip(bs: seq<Byte>)
    ensures UnsignedBytes(Unsigned(bs), |bs|) == bs
  {
    if |bs| > 0 {
      var u := Unsigned(bs);
      assert u % 256 == bs[0] && u / 256 == Unsigned(bs[1..]);
      UnsignedRoundTrip(bs[1..]);
    }
  }

  /** The `int64_t` stored in 8 bytes: little-endian, two's complement. */
  function DecodeInt64(bs: seq<Byte>): (x: int)
    requires |bs| == 8
    ensures IsInt64(x)
  {
    var u := Unsigned(bs);
    assert Pow256(8) == TWO_TO_64;
    if u < TWO_TO_63 then u else u - TWO_TO_64
  }

  /** The 8 bytes that store the `int64_t` value `x`. */
  function EncodeInt64(x: int): (bs: seq<Byte>)
    requires IsInt64(x)
    ensures |bs| == 8
  {
    UnsignedBytes(if x < 0 then x + TWO_TO_64 else x, 8)
  }

  lemma DecodeEncodeInt64(x: int)
    requires IsInt64(x)
    ensures DecodeInt64(EncodeInt64(x)) == x
  {
    assert Pow256(8) == TWO_TO_64;
    UnsignedBytesRoundTrip(if x < 0 then x + TWO_TO_64 else x, 8);
  }

  lemma EncodeDecodeInt64(bs: seq<Byte>)
    requires |bs| == 8
    ensures EncodeInt64(DecodeInt64(bs)) == bs
  {
    assert Pow256(8) == TWO_TO_64;
    UnsignedRoundTrip(bs);
  }

  /** Two distinct 8-byte patterns never decode to the same `int64_t`. */
  lemma DecodeInt64Injective(a: seq<Byte>, b: seq<Byte>)
    requires |a| == 8 && |b| == 8
    ensures DecodeInt64(a) == DecodeInt64(b) <==> a == b
  {
    if DecodeInt64(a) == DecodeInt64(b) {
      EncodeDecodeInt64(a);
      EncodeDecodeInt64(b);
    }
  }

  /** `Int<int64_t>`: a view of the 8 bytes at `begin`. */
  datatype Long = Long(mem: seq<Byte>, begin: nat) {

    predicate InBounds() { begin + LONG_LENGTH <= |mem| }

    function Length(): nat { LONG_LENGTH }

    function Begin(): nat { begin }

    function End(): nat { Begin() + Length() }

    /** `operator()`: the value stored at `begin()`. */
    function Value(): (v: int)
      requires InBounds()
      ensures IsInt64(v)
      ensures EncodeInt64(v) == mem[Begin()..End()]
    {
      EncodeDecodeInt64(mem[Begin()..End()]);
      DecodeInt64(mem[Begin()..End()])
    }

    predicate Less(rhs: Long)
      requires InBounds() && rhs.InBounds()
    {
      Value() < rhs.Value()
    }

    predicate Greater(rhs: Long)
      requires InBounds() && rhs.InBounds()
    {
      Value() > rhs.Value()
    }

    predicate Equal(rhs: Long)
      requires InBounds() && rhs.InBounds()
    {
      Value() == rhs.Value()
    }

    /** `os << value`: the value in decimal. */
    function ToString(): string
      requires InBounds()
    {
      IntToString(Value())
    }
  }

  /** `Int<std::pair<int64_t, int64_t>>`: a view of the 16 bytes at `begin`. */
  datatype LongPair = LongPair(mem: seq<Byte>, begin: nat) {

    predicate InBounds() { begin + LONG_PAIR_LENGTH <= |mem| }

    function Length(): nat { LONG_PAIR_LENGTH }

    function Begin(): nat { begin }

    function End(): nat { Begin() + Length() }

    /** `.first`: the `int64_t` in the first 8 bytes. */
    function First(): (x: int)
      requires InBounds()
      ensures IsInt64(x)
      ensures EncodeInt64(x) == mem[Begin()..Begin() + LONG_LENGTH]
    {
      EncodeDecodeInt64(mem[Begin()..Begin() + LONG_LENGTH]);
      DecodeInt64(mem[Begin()..Begin() + LONG_LENGTH])
    }

    /** `.second`: the `int64_t` in the last 8 bytes. */
    function Second(): (x: int)
      requires InBounds()
      ensures IsInt64(x)
      ensures EncodeInt64(x) == mem[Begin() + LONG_LENGTH..End()]
    {
      EncodeDecodeInt64(mem[Begin() + LONG_LENGTH..End()]);
      DecodeInt64(mem[Begin() + LONG_LENGTH..End()])
    }

    /** `operator()`: the pair stored at `begin()`. */
    function Value(): (int, int)
      requires InBounds()
    {
      (First(), Second())
    }

    /** `std::pair`'s `<`: lexicographic on (first, second). */
    predicate Less(rhs: LongPair)
      requires InBounds() && rhs.InBounds()
    {
      First() < rhs.First() || (First() == rhs.First() && Second() < rhs.Second())
    }

    /** `std::pair`'s `>`, which is `rhs < lhs`. */
    predicate Greater(rhs: LongPair)
      requires InBounds() && rhs.InBounds()
    {
      rhs.First() < First() || (rhs.First() == First() && rhs.Second() < Second())
    }

    predicate Equal(rhs: LongPair)
      requires InBounds() && rhs.InBounds()
    {
      First() == rhs.First() && Second() == rhs.Second()
    }

    /** The dedicated `operator<<`: `(first . second)`. */
    function ToString(): string
      requires InBounds()
    {
      "(" + IntToString(First()) + " . " + IntToString(Second()) + ")"
    }
  }

  /** The region [begin(), end()) of a Long is exactly the bytes `operator()` decodes. */
  lemma LongRegion(a: Long)
    requires a.InBounds()
    ensures a.End() - a.Begin() == 8
    ensures a.Value() == DecodeInt64(a.mem[a.begin..a.begin + 8])
  {
  }

  /** Storing a value through EncodeInt64 and viewing it reads the same value back. */
  lemma LongReadsStoredValue(prefix: seq<Byte>, x: int, suffix: seq<Byte>)
    requires IsInt64(x)
    ensures Long(prefix + EncodeInt64(x) + suffix, |prefix|).InBounds()
    ensures Long(prefix + EncodeInt64(x) + suffix, |prefix|).Value() == x
  {
    var mem := prefix + EncodeInt64(x) + suffix;
    assert mem[|prefix|..|prefix| + 8] == EncodeInt64(x);
    DecodeEncodeInt64(x);
  }

  /** `a == b` holds exactly when the two views cover identical bytes. */
  lemma LongEqualIffSameBytes(a: Long, b: Long)
    requires a.InBounds() && b.InBounds()
    ensures a.Equal(b) <==> a.mem[a.Begin()..a.End()] == b.mem[b.Begin()..b.End()]
  {
    DecodeInt64Injective(a.mem[a.Begin()..a.End()], b.mem[b.Begin()..b.End()]);
  }

  /** For Long exactly one of `a < b`, `a == b`, `a > b` holds, and `a > b` is `b < a`. */
  lemma LongTrichotomy(a: Long, b: Long)
    requires a.InBounds() && b.InBounds()
    ensures a.Less(b) || a.Equal(b) || a.Greater(b)
    ensures !(a.Less(b) && a.Equal(b)) && !(a.Less(b) && a.Greater(b)) && !(a.Equal(b) && a.Greater(b))
    ensures a.Greater(b) <==> b.Less(a)
  {
  }

  /** LongPair's `<` is a strict total order, `>` is its converse, and `==` is equality of both halves. */
  lemma LongPairOrder(a: LongPair, b: LongPair, c: LongPair)
    requires a.InBounds() && b.InBounds() && c.InBounds()
    ensures !a.Less(a)
    ensures a.Less(b) && b.Less(c) ==> a.Less(c)
    ensures a.Less(b) || a.Equal(b) || a.Greater(b)
    ensures !(a.Less(b) && a.Equal(b)) && !(a.Less(b) && a.Greater(b)) && !(a.Equal(b) && a.Greater(b))
    ensures a.Greater(b) <==> b.Less(a)
    ensures a.Equal(b) <==> a.Value() == b.Value()
  {
  }

  /** LongPair `==` holds exactly when the two views cover identical bytes. */
  lemma LongPairEqualIffSameBytes(a: LongPair, b: LongPair)
    requires a.InBounds() && b.InBounds()
    ensures a.Equal(b) <==> a.mem[a.Begin()..a.End()] == b.mem[b.Begin()..b.End()]
  {
    var ra, rb := a.mem[a.Begin()..a.End()], b.mem[b.Begin()..b.End()];
    assert ra == a.mem[a.Begin()..a.Begin() + 8] + a.mem[a.Begin() + 8..a.End()];
    assert rb == b.mem[b.Begin()..b.Begin() + 8] + b.mem[b.Begin() + 8..b.End()];
    DecodeInt64Injective(a.mem[a.Begin()..a.Begin() + 8], b.mem[b.Begin()..b.Begin() + 8]);
    DecodeInt64Injective(a.mem[a.Begin() + 8..a.End()], b.mem[b.Begin() + 8..b.End()]);
    if ra == rb {
      assert ra[..8] == rb[..8] && ra[8..] == rb[8..];
    }
  }

  /** The printed Long reads back as its value. */
  lemma LongToStringRoundTrip(a: Long)
    requires a.InBounds()
    ensures ParseInt(a.ToString()) == Some(a.Value())
  {
    IntToStringRoundTrip(a.Value());
  }

  /** First position of `c` in `s`, or |s| when absent. */
  function IndexOf(s: string, c: char): (k: nat)
    ensures k <= |s|
    ensures k < |s| ==> s[k] == c
    ensures forall i :: 0 <= i < k ==> s[i] != c
  {
    if |s| == 0 then 0 else if s[0] == c then 0 else 1 + IndexOf(s[1..], c)
  }

  /** Reads back the text written by LongPair's `operator<<`. */
  function ParseLongPair(s: string): Option<(int, int)>
  {
    if |s| < 2 || s[0] != '(' || s[|s| - 1] != ')' then None
    else
      var inner := s[1..|s| - 1];
      var k := IndexOf(inner, ' ');
      if k + 3 > |inner| || inner[k..k + 3] != " . " then None
      else
        match (ParseInt(inner[..k]), ParseInt(inner[k + 3..]))
        case (Some(x), Some(y)) => Some((x, y))
        case _ => None
  }

  /** The printed pair determines the pair: parsing it gives back (first, second). */
  lemma LongPairToStringRoundTrip(a: LongPair)
    requires a.InBounds()
    ensures ParseLongPair(a.ToString()) == Some(a.Value())
  {
    var f, g := IntToString(a.First()), IntToString(a.Second());
    var s := a.ToString();
    var inner := s[1..|s| - 1];
    assert inner == f + " . " + g;
    IntToStringNoSpace(a.First());
    var k := IndexOf(inner, ' ');
    assert inner[|f|] == ' ';
    assert k == |f|;
    assert inner[k..k + 3] == " . ";
    assert inner[..k] == f;
    assert inner[k + 3..] == g;
    IntToStringRoundTrip(a.First());
    IntToStringRoundTrip(a.Second());
  }
}
