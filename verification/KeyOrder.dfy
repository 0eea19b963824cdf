/**
 Byte order of encoded numbers. A 32-bit number is encoded in little-endian
 bytes, so tables keyed by numbers are not in numeric order.
 */
module KeyOrder {

  function LittleEndian(v: nat): (r: seq<int>)
    ensures |r| == 4
  {
    [v % 256, v / 256 % 256, v / 256 / 256 % 256, v / 256 / 256 / 256]
  }

  lemma Digit(v: nat, w: nat)
    requires v % 256 == w % 256 && v / 256 == w / 256
    ensures v == w
  {
  }

  lemma LittleEndianInjective(v: nat, w: nat)
    requires LittleEndian(v) == LittleEndian(w)
    ensures v == w
  {
    var a, b := LittleEndian(v), LittleEndian(w);
    assert a[0] == b[0] && a[1] == b[1] && a[2] == b[2] && a[3] == b[3];
    Digit(v / 256 / 256, w / 256 / 256);
    Digit(v / 256, w / 256);
    Digit(v, w);
  }

  /** Lexicographic order. */
  predicate LexAtMost(a: seq<int>, b: seq<int>) {
    a == [] || (b != [] && (a[0] < b[0] || (a[0] == b[0] && LexAtMost(a[1..], b[1..]))))
  }

  lemma {:induction false} LexTotal(a: seq<int>, b: seq<int>)
    ensures LexAtMost(a, b) || LexAtMost(b, a)
    ensures LexAtMost(a, b) && LexAtMost(b, a) ==> a == b
  {
    if a != [] && b != [] {
      LexTotal(a[1..], b[1..]);
      assert a == [a[0]] + a[1..] && b == [b[0]] + b[1..];
    }
  }

  lemma {:induction false} LexTransitive(a: seq<int>, b: seq<int>, c: seq<int>)
    requires LexAtMost(a, b) && LexAtMost(b, c)
    ensures LexAtMost(a, c)
  {
    if a != [] && a[0] == b[0] == c[0] {
      LexTransitive(a[1..], b[1..], c[1..]);
    }
  }

  /** The key of `v` is not after the key of `w`. */
  predicate NumberAtMost(v: nat, w: nat) {
    LexAtMost(LittleEndian(v), LittleEndian(w))
  }

  lemma NumberOrder(v: nat, w: nat)
    ensures NumberAtMost(v, w) || NumberAtMost(w, v)
    ensures NumberAtMost(v, w) && NumberAtMost(w, v) ==> v == w
  {
    LexTotal(LittleEndian(v), LittleEndian(w));
    if LittleEndian(v) == LittleEndian(w) {
      LittleEndianInjective(v, w);
    }
  }

  /** Comparing keys is comparing the lowest bytes first. */
  lemma LowestByteFirst(v: nat, w: nat)
    ensures v % 256 < w % 256 ==> NumberAtMost(v, w) && !NumberAtMost(w, v)
    ensures v % 256 == w % 256 ==> (NumberAtMost(v, w) <==> LexAtMost(LittleEndian(v)[1..], LittleEndian(w)[1..]))
  {
    NumberOrder(v, w);
  }

  /** From the second byte on. */
  lemma SecondByte(v: nat, w: nat)
    requires v % 256 == w % 256
    ensures v / 256 % 256 < w / 256 % 256 ==> NumberAtMost(v, w) && !NumberAtMost(w, v)
    ensures v / 256 % 256 == w / 256 % 256 ==>
              (NumberAtMost(v, w) <==> LexAtMost(LittleEndian(v)[2..], LittleEndian(w)[2..]))
  {
    LowestByteFirst(v, w);
    NumberOrder(v, w);
    assert LittleEndian(v)[1..][1..] == LittleEndian(v)[2..] && LittleEndian(w)[1..][1..] == LittleEndian(w)[2..];
  }

  /** From the third byte on. */
  lemma ThirdByte(v: nat, w: nat)
    requires v % 256 == w % 256 && v / 256 % 256 == w / 256 % 256
    ensures v / 256 / 256 % 256 < w / 256 / 256 % 256 ==> NumberAtMost(v, w) && !NumberAtMost(w, v)
    ensures v / 256 / 256 % 256 == w / 256 / 256 % 256 ==>
            (NumberAtMost(v, w) <==> v / 256 / 256 / 256 <= w / 256 / 256 / 256)
  {
    SecondByte(v, w);
    NumberOrder(v, w);
    var a, b := LittleEndian(v)[2..], LittleEndian(w)[2..];
    assert a[0] == LittleEndian(v)[2] && b[0] == LittleEndian(w)[2] && |a[1..]| == 1 && |b[1..]| == 1;
    assert a[1..][0] == LittleEndian(v)[3] && b[1..][0] == LittleEndian(w)[3];
    assert a[1..][1..] == [] && b[1..][1..] == [];
  }

  // ---- the last of the numbers below a count ----

  /** Among the keys of 0, 1, ..., n - 1 that of n - 1 is last. */
  predicate CountFits(n: nat) {
    n == 0 || LastBelow(n - 1, n)
  }

  predicate LastBelow(m: nat, n: nat) {
    forall j: nat | j < n :: NumberAtMost(j, m)
  }

  /** That is so up to 256, and then for some multiples of 256 only: for no count from 257 to 511. */
  predicate EndsLast(n: nat) {
    n <= 256 || (n % 256 == 0 && EndsLastAbove(n / 256))
  }

  predicate EndsLastAbove(n: nat) {
    n <= 256 || (n % 256 == 0 && (n / 256 <= 256 || n / 256 % 256 == 0))
  }

  lemma Quotients(n: nat, j: nat)
    requires j < n
    ensures j / 256 <= (n - 1) / 256
    ensures n % 256 == 0 ==> (n - 1) % 256 == 255 && n / 256 > 0 && (n - 1) / 256 == n / 256 - 1
  {
  }

  lemma FitsOneByte(n: nat, j: nat)
    requires j < n <= 256
    ensures NumberAtMost(j, n - 1)
  {
    LowestByteFirst(j, n - 1);
    NumberOrder(j, n - 1);
  }

  lemma FitsTwoBytes(n: nat, j: nat)
    requires j < n && n % 256 == 0 && n / 256 <= 256
    ensures NumberAtMost(j, n - 1)
  {
    Quotients(n, j);
    LowestByteFirst(j, n - 1);
    if j % 256 == 255 {
      SecondByte(j, n - 1);
      assert (n - 1) / 256 < 256;
      if j / 256 == (n - 1) / 256 {
        Digit(j, n - 1);
        NumberOrder(j, n - 1);
      }
    }
  }

  lemma FitsMoreBytes(n: nat, j: nat)
    requires j < n && n % 256 == 0 && n / 256 % 256 == 0
    requires n / 256 / 256 <= 0x100 || n / 256 / 256 % 256 == 0
    ensures NumberAtMost(j, n - 1)
  {
    Quotients(n, j);
    Quotients(n / 256, j / 256);
    Quotients(n / 256 / 256, j / 256 / 256);
    LowestByteFirst(j, n - 1);
    if j % 256 == 255 {
      SecondByte(j, n - 1);
      if j / 256 % 256 == 255 {
        ThirdByte(j, n - 1);
        ThirdFits((n - 1) / 256 / 256, j / 256 / 256);
      }
    }
  }

  lemma ThirdFits(m: nat, k: nat)
    requires k <= m && (m < 256 || m % 256 == 255)
    ensures k % 256 < m % 256 || (k % 256 == m % 256 && k / 256 <= m / 256)
  {
  }

  lemma LastFits(n: nat, j: nat)
    requires j < n && EndsLast(n)
    ensures NumberAtMost(j, n - 1)
  {
    if n <= 256 {
      FitsOneByte(n, j);
    } else if n / 256 <= 256 {
      FitsTwoBytes(n, j);
    } else {
      FitsMoreBytes(n, j);
    }
  }

  /** A number that does not end in 255 precedes 255, and so on for the second and third byte. */
  lemma LowByteBefore(m: nat)
    requires m % 256 < 255
    ensures !NumberAtMost(0xFF, m)
  {
    LowestByteFirst(m, 0xFF);
  }

  lemma SecondByteBefore(m: nat)
    requires m % 256 == 255 && m / 256 % 256 < 255
    ensures !NumberAtMost(0xFFFF, m)
  {
    SecondByte(m, 0xFFFF);
  }

  lemma ThirdByteBefore(m: nat)
    requires m % 256 == 255 && m / 256 % 256 == 255 && m / 256 / 256 % 256 < 255
    ensures !NumberAtMost(0xFF_FFFF, m)
  {
    ThirdByte(m, 0xFF_FFFF);
  }

  lemma NotLast(q: nat)
    requires q > 256 && q % 256 != 0
    ensures (q - 1) % 256 < 255
  {
  }

  /** For any other count an earlier number has a later key. */
  lemma LaterKey(n: nat) returns (j: nat)
    requires !EndsLast(n)
    ensures j < n - 1 && !NumberAtMost(j, n - 1)
  {
    if n % 256 != 0 {
      j := 0xFF;
      NotLast(n);
      LowByteBefore(n - 1);
      return;
    }
    Quotients(n, 0);
    if n / 256 % 256 != 0 {
      j := 0xFFFF;
      NotLast(n / 256);
      SecondByteBefore(n - 1);
      return;
    }
    Quotients(n / 256, 0);
    j := 0xFF_FFFF;
    NotLast(n / 256 / 256);
    ThirdByteBefore(n - 1);
  }

  lemma CountFitsExactly(n: nat)
    ensures CountFits(n) <==> EndsLast(n)
  {
    if EndsLast(n) {
      if n > 0 {
        var m := n - 1;
        forall j: nat | j < n
          ensures NumberAtMost(j, m)
        {
          LastFits(n, j);
        }
        assert LastBelow(m, n);
      }
    } else {
      var _ := LaterKey(n);
    }
  }

  /** Counts `n`, `n + 1`, ..., `n + more - 1` all fit. */
  predicate CountsFit(n: nat, more: nat) {
    more == 0 || (CountsFit(n, more - 1) && CountFits(n + more - 1))
  }

  /** Starting from nothing, that is so up to 257 more. */
  lemma {:induction false} CountsFromZero(more: nat)
    ensures CountsFit(0, more) <==> more <= 257
  {
    if more > 0 {
      CountsFromZero(more - 1);
      CountFitsExactly(more - 1);
    }
  }

  lemma {:induction false} CountsFitInParts(n: nat, a: nat, b: nat)
    ensures CountsFit(n, a + b) <==> CountsFit(n, a) && CountsFit(n + a, b)
    decreases b
  {
    if b > 0 {
      CountsFitInParts(n, a, b - 1);
    }
  }
}
