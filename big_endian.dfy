/**
 * Fixed-width big-endian numbers and the unsigned lexicographic order on byte
 * strings, the two byte-level facts the column layout relies on.
 */
module BigEndian {
  import opened JavaTypes

  function Pow256(width: nat): (p: nat)
    ensures p > 0
  {
    if width == 0 then 1 else 256 * Pow256(width - 1)
  }

  lemma Pow256Widths()
    ensures Pow256(4) == TWO_32 && Pow256(8) == TWO_64
  {
    assert Pow256(2) == 0x1_0000;
    assert Pow256(6) == 0x1_0000_0000_0000;
  }

  /** The `width` low-order bytes of `n`, most significant first. */
  function ToBytes(width: nat, n: nat): (s: seq<byte>)
    requires n < Pow256(width)
    ensures |s| == width
  {
    if width == 0 then [] else ToBytes(width - 1, n / 256) + [(n % 256) as byte]
  }

  /** The natural number a byte string denotes, most significant byte first. */
  function FromBytes(s: seq<byte>): (n: nat)
    ensures n < Pow256(|s|)
  {
    if s == [] then 0 else FromBytes(s[..|s| - 1]) * 256 + s[|s| - 1] as int
  }

  lemma {:induction false} FromToBytes(width: nat, n: nat)
    requires n < Pow256(width)
    ensures FromBytes(ToBytes(width, n)) == n
  {
    if width > 0 {
      var s := ToBytes(width, n);
      assert s[..|s| - 1] == ToBytes(width - 1, n / 256);
      FromToBytes(width - 1, n / 256);
    }
  }

  lemma {:induction false} ToFromBytes(s: seq<byte>)
    ensures ToBytes(|s|, FromBytes(s)) == s
  {
    if s != [] {
      var init := s[..|s| - 1];
      assert FromBytes(s) / 256 == FromBytes(init);
      ToFromBytes(init);
      assert s == init + [s[|s| - 1]];
    }
  }

  /** Two numbers of one width have the same bytes only if they are equal. */
  lemma ToBytesInjective(width: nat, m: nat, n: nat)
    requires m < Pow256(width) && n < Pow256(width)
    requires ToBytes(width, m) == ToBytes(width, n)
    ensures m == n
  {
    FromToBytes(width, m);
    FromToBytes(width, n);
  }

  /**
   * Unsigned lexicographic order on byte strings: the order in which the
   * store returns the columns of a family.
   */
  predicate LexLess(a: seq<byte>, b: seq<byte>)
  {
    if a == [] then b != []
    else b != [] && (a[0] < b[0] || (a[0] == b[0] && LexLess(a[1..], b[1..])))
  }

  lemma {:induction false} LexIrreflexive(a: seq<byte>)
    ensures !LexLess(a, a)
  {
    if a != [] {
      LexIrreflexive(a[1..]);
    }
  }

  lemma {:induction false} LexTransitive(a: seq<byte>, b: seq<byte>, c: seq<byte>)
    requires LexLess(a, b) && LexLess(b, c)
    ensures LexLess(a, c)
  {
    if a != [] && a[0] == b[0] && b[0] == c[0] {
      LexTransitive(a[1..], b[1..], c[1..]);
    }
  }

  /** Appending one byte to two strings of one length keeps their order, or decides it. */
  lemma {:induction false} LexSnoc(a: seq<byte>, x: byte, b: seq<byte>, y: byte)
    requires |a| == |b|
    ensures LexLess(a + [x], b + [y]) <==> LexLess(a, b) || (a == b && x < y)
  {
    if a != [] {
      assert (a + [x])[1..] == a[1..] + [x];
      assert (b + [y])[1..] == b[1..] + [y];
      LexSnoc(a[1..], x, b[1..], y);
      if a[0] == b[0] && a[1..] == b[1..] {
        assert a == [a[0]] + a[1..] && b == [b[0]] + b[1..];
      }
    }
  }

  /**
   * Big-endian numbers of one width sort lexicographically exactly as they
   * sort numerically.
   */
  lemma {:induction false} ToBytesMonotone(width: nat, m: nat, n: nat)
    requires m < Pow256(width) && n < Pow256(width)
    ensures LexLess(ToBytes(width, m), ToBytes(width, n)) <==> m < n
  {
    if width > 0 {
      ToBytesMonotone(width - 1, m / 256, n / 256);
      LexSnoc(ToBytes(width - 1, m / 256), (m % 256) as byte, ToBytes(width - 1, n / 256), (n % 256) as byte);
      if ToBytes(width - 1, m / 256) == ToBytes(width - 1, n / 256) {
        ToBytesInjective(width - 1, m / 256, n / 256);
      }
    }
  }
}
