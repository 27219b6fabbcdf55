/** Bytes and the fixed-width integer encodings every codec of the repository uses.
    Values are unbounded integers; each width is written out where it matters. */
module Bytes {

  type byte = b: int | 0 <= b < 256

  const U32_MAX: nat := 0xFFFF_FFFF
  const U64_MAX: nat := 0xFFFF_FFFF_FFFF_FFFF

  type u32 = n: nat | n <= U32_MAX
  type u64 = n: nat | n <= U64_MAX

  /** Sixteen bytes that name something. */
  type Id = id: seq<byte> | |id| == 16 witness Zeros(16)

  function Pow256(n: nat): (p: nat)
    ensures p > 0
  {
    if n == 0 then 1 else 256 * Pow256(n - 1)
  }

  /** The low `n` bytes of `v`, least significant first. */
  function Little(v: nat, n: nat): (s: seq<byte>)
    ensures |s| == n
  {
    if n == 0 then [] else [v % 256] + Little(v / 256, n - 1)
  }

  function FromLittle(s: seq<byte>): nat {
    if s == [] then 0 else s[0] + 256 * FromLittle(s[1..])
  }

  /** `v` shifted right by `n` bytes. */
  function ShiftBytes(v: nat, n: nat): nat {
    if n == 0 then v else ShiftBytes(v / 256, n - 1)
  }

  /** The low `n` bytes of `v`, most significant first. */
  function Big(v: nat, n: nat): (s: seq<byte>)
    ensures |s| == n
  {
    if n == 0 then [] else Big(v / 256, n - 1) + [v % 256]
  }

  function FromBig(s: seq<byte>): nat {
    if s == [] then 0 else 256 * FromBig(s[..|s| - 1]) + s[|s| - 1]
  }

  predicate NonZero(s: seq<byte>) {
    exists i :: 0 <= i < |s| && s[i] != 0
  }

  function Zeros(n: nat): (s: seq<byte>)
    ensures |s| == n && !NonZero(s)
  {
    seq(n, _ => 0)
  }

  lemma PowValues()
    ensures Pow256(1) == 0x100 && Pow256(2) == 0x1_0000
    ensures Pow256(4) == U32_MAX + 1 && Pow256(8) == U64_MAX + 1
  {
    assert Pow256(2) == 0x1_0000;
    assert Pow256(4) == 256 * (256 * Pow256(2));
    assert Pow256(6) == 256 * (256 * Pow256(4));
    assert Pow256(8) == 256 * (256 * Pow256(6));
  }

  /** Encoding then decoding keeps every value that fits the width. */
  lemma {:induction false} LittleRoundTrip(v: nat, n: nat)
    requires v < Pow256(n)
    ensures FromLittle(Little(v, n)) == v
  {
    if n > 0 {
      LittleRoundTrip(v / 256, n - 1);
      assert Little(v, n)[1..] == Little(v / 256, n - 1);
    }
  }

  /** Decoding then encoding gives back the very bytes. */
  lemma {:induction false} LittleBytes(s: seq<byte>)
    ensures FromLittle(s) < Pow256(|s|)
    ensures Little(FromLittle(s), |s|) == s
  {
    if s != [] {
      LittleBytes(s[1..]);
      var v := FromLittle(s);
      assert v % 256 == s[0] && v / 256 == FromLittle(s[1..]);
      assert Little(v, |s|) == [s[0]] + Little(v / 256, |s| - 1);
    }
  }

  lemma {:induction false} LittleAppend(s: seq<byte>, b: byte)
    ensures FromLittle(s + [b]) == FromLittle(s) + b * Pow256(|s|)
  {
    if s == [] {
      assert s + [b] == [b];
      assert FromLittle([b]) == b + 256 * FromLittle([]);
    } else {
      assert (s + [b])[1..] == s[1..] + [b];
      LittleAppend(s[1..], b);
      calc {
        FromLittle(s + [b]);
        s[0] + 256 * (FromLittle(s[1..]) + b * Pow256(|s| - 1));
        FromLittle(s) + 256 * (b * Pow256(|s| - 1));
        { assert 256 * (b * Pow256(|s| - 1)) == b * (256 * Pow256(|s| - 1)); }
        FromLittle(s) + b * Pow256(|s|);
      }
    }
  }

  lemma {:induction false} LittleSplit(v: nat, n: nat)
    ensures Little(v, n + 1) == Little(v, n) + [ShiftBytes(v, n) % 256]
  {
    if n == 0 {
      assert Little(v, 1) == [v % 256] + Little(v / 256, 0);
    } else {
      LittleSplit(v / 256, n - 1);
    }
  }

  lemma {:induction false} BigRoundTrip(v: nat, n: nat)
    requires v < Pow256(n)
    ensures FromBig(Big(v, n)) == v
  {
    if n > 0 {
      BigRoundTrip(v / 256, n - 1);
      assert Big(v, n)[..n - 1] == Big(v / 256, n - 1);
    }
  }

  lemma {:induction false} BigBytes(s: seq<byte>)
    ensures FromBig(s) < Pow256(|s|)
    ensures Big(FromBig(s), |s|) == s
  {
    if s != [] {
      BigBytes(s[..|s| - 1]);
    }
  }

  /** Byte i of a little-endian word is worth 256^i, of a big-endian one 256^(n-1-i). */
  lemma {:induction false} LittleAt(v: nat, n: nat, i: nat)
    requires i < n
    ensures Little(v, n)[i] == v / Pow256(i) % 256
  {
    if i > 0 {
      LittleAt(v / 256, n - 1, i - 1);
      DivideTwice(v, Pow256(i - 1));
    }
  }

  lemma {:induction false} BigAt(v: nat, n: nat, i: nat)
    requires i < n
    ensures Big(v, n)[i] == v / Pow256(n - 1 - i) % 256
  {
    if i < n - 1 {
      BigAt(v / 256, n - 1, i);
      DivideTwice(v, Pow256(n - 2 - i));
    }
  }

  lemma DivideTwice(v: nat, p: nat)
    requires p > 0
    ensures v / 256 / p == v / (256 * p)
  {
    var q, r := v / (256 * p), v % (256 * p);
    assert v == 256 * p * q + r;
    assert v / 256 == p * q + r / 256;
    assert r / 256 < p;
    assert (p * q + r / 256) / p == q by {
      DivideSum(p, q, r / 256);
    }
  }

  lemma {:induction false} MulOrder(p: nat, a: nat, b: nat)
    requires a < b
    ensures p * a + p <= p * b
    decreases b
  {
    if a + 1 < b {
      MulOrder(p, a, b - 1);
    }
    assert p * b == p * (b - 1) + p;
  }

  lemma DivideSum(p: nat, q: nat, r: nat)
    requires r < p
    ensures (p * q + r) / p == q
  {
    var n := p * q + r;
    var d := n / p;
    assert p * d <= n < p * d + p;
    if d < q {
      MulOrder(p, d, q);
    } else if q < d {
      MulOrder(p, q, d);
    }
  }

  lemma Beheaded(s: seq<byte>, at: nat, head: seq<byte>, tail: seq<byte>)
    requires at <= |s| && s[at..] == head + tail
    ensures at + |head| <= |s| && s[at..at + |head|] == head && s[at + |head|..] == tail
  {
    assert s[at..at + |head|] == s[at..][..|head|] == head;
    assert s[at + |head|..] == s[at..][|head|..] == tail;
  }

  lemma Consecutive(s: seq<byte>, i: nat, j: nat, k: nat)
    requires i <= j <= k <= |s|
    ensures s[i..j] + s[j..k] == s[i..k]
  {
  }

  /** `put_le`: the loop that stores `count` bytes of `value` at `at`. */
  method PutLittle(out: array<byte>, at: nat, value: nat, count: nat)
    requires at + count <= out.Length
    modifies out
    ensures out[..] == old(out[..at]) + Little(value, count) + old(out[at + count..])
  {
    var i := 0;
    while i < count
      invariant 0 <= i <= count
      invariant out[..] == old(out[..at]) + Little(value, i) + old(out[at + i..])
    {
      LittleSplit(value, i);
      out[at + i] := ShiftBytes(value, i) % 256;
      i := i + 1;
    }
  }

  /** `read_le`: the loop that accumulates `count` bytes starting at `at`. */
  method ReadLittle(bytes: seq<byte>, at: nat, count: nat) returns (result: nat)
    requires at + count <= |bytes|
    ensures result == FromLittle(bytes[at..at + count])
  {
    result := 0;
    var i := 0;
    while i < count
      invariant 0 <= i <= count
      invariant result == FromLittle(bytes[at..at + i])
    {
      LittleAppend(bytes[at..at + i], bytes[at + i]);
      assert bytes[at..at + i] + [bytes[at + i]] == bytes[at..at + i + 1];
      result := result + bytes[at + i] * Pow256(i);
      i := i + 1;
    }
  }
}
