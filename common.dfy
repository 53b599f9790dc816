/** Value types shared by every module of the model: Rust's `Option`, the
    fixed-width unsigned integers the server uses, and big-endian byte
    encoding (`to_be_bytes` / `from_be_bytes`). */
module Common {

  datatype Option<+T> = None | Some(value: T)

  type u8 = x: int | 0 <= x < 0x100
  type u32 = x: int | 0 <= x < 0x1_0000_0000
  type u64 = x: int | 0 <= x < 0x1_0000_0000_0000_0000

  /** `a + b` on `u8` with the wrap-around of a release build
      (a debug build panics instead). */
  function WrappingAdd(a: u8, b: u8): (r: u8)
    ensures a + b < 0x100 ==> r == a + b
    ensures a + b >= 0x100 ==> r == a + b - 0x100
  {
    (a + b) % 0x100
  }

  /** `n += 1` on `u32` with the wrap-around of a release build. */
  function WrappingIncrement(n: u32): (r: u32)
    ensures n < 0xFFFF_FFFF ==> r == n + 1
    ensures n == 0xFFFF_FFFF ==> r == 0
  {
    if n == 0xFFFF_FFFF then 0 else n + 1
  }

  /** The wrapping increment is addition of one modulo `2^32`. */
  lemma WrappingIncrementIsModular(n: u32)
    ensures WrappingIncrement(n) == (n + 1) % 0x1_0000_0000
  {
    if n == 0xFFFF_FFFF {
      FundamentalDivMod(n + 1, 0x1_0000_0000, 1, 0);
    } else {
      FundamentalDivMod(n + 1, 0x1_0000_0000, 0, n + 1);
    }
  }

  /** The occurrences of `x` in `s`, split off at the last element. */
  lemma CountLast<T>(s: seq<T>, x: T)
    requires s != []
    ensures multiset(s)[x] == multiset(s[..|s| - 1])[x] + (if s[|s| - 1] == x then 1 else 0)
  {
    assert s == s[..|s| - 1] + [s[|s| - 1]];
    assert multiset(s) == multiset(s[..|s| - 1]) + multiset{s[|s| - 1]};
  }

  function Pow256(n: nat): (r: nat)
    ensures r > 0
  {
    if n == 0 then 1 else 256 * Pow256(n - 1)
  }

  /** The `width` low-order bytes of `n`, most significant first: what
      `to_be_bytes` writes after an `as` cast truncates `n` to `width` bytes. */
  function ToBigEndian(n: nat, width: nat): (r: seq<u8>)
    ensures |r| == width
  {
    if width == 0 then [] else ToBigEndian(n / 256, width - 1) + [n % 256]
  }

  /** The number that the bytes `s` denote, most significant first
      (`from_be_bytes`). */
  function FromBigEndian(s: seq<u8>): (r: nat)
    ensures r < Pow256(|s|)
  {
    if s == [] then 0 else FromBigEndian(s[..|s| - 1]) * 256 + s[|s| - 1]
  }

  lemma DivModSplit(n: nat, p: nat)
    requires p > 0
    ensures n % (256 * p) == (n / 256) % p * 256 + n % 256
  {
    var q, r := n / 256, n % 256;
    var a, b := q / p, q % p;
    assert q == a * p + b;
    assert n == a * (256 * p) + (b * 256 + r);
    assert 0 <= b * 256 + r < 256 * p;
    FundamentalDivMod(n, 256 * p, a, b * 256 + r);
  }

  lemma FundamentalDivMod(n: int, m: int, a: int, c: int)
    requires m > 0 && 0 <= c < m && n == a * m + c
    ensures n % m == c
  {
    var a', c' := n / m, n % m;
    assert (a' - a) * m == c - c' by {
      assert a' * m + c' == a * m + c;
    }
    if a' > a {
      NonNegativeProduct(a' - a - 1, m);
      assert false;
    } else if a' < a {
      NonNegativeProduct(a - a' - 1, m);
      assert false;
    }
  }

  lemma NonNegativeProduct(d: int, m: int)
    requires d >= 0 && m >= 0
    ensures d * m >= 0
  {
  }

  /** Decoding what was encoded gives back the number modulo the width. */
  lemma {:induction false} BigEndianRoundTrip(n: nat, width: nat)
    ensures FromBigEndian(ToBigEndian(n, width)) == n % Pow256(width)
  {
    if width > 0 {
      var s := ToBigEndian(n, width);
      assert s[..|s| - 1] == ToBigEndian(n / 256, width - 1);
      BigEndianRoundTrip(n / 256, width - 1);
      DivModSplit(n, Pow256(width - 1));
    }
  }

  /** Encoding what was decoded gives back the bytes. */
  lemma {:induction false} BigEndianInverse(s: seq<u8>)
    ensures ToBigEndian(FromBigEndian(s), |s|) == s
  {
    if s != [] {
      var init, last := s[..|s| - 1], s[|s| - 1];
      var n := FromBigEndian(s);
      assert n == FromBigEndian(init) * 256 + last;
      assert n / 256 == FromBigEndian(init) && n % 256 == last;
      BigEndianInverse(init);
      assert s == init + [last];
    }
  }
}
