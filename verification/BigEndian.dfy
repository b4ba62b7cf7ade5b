/** `toBigEndian` and `fromBigEndian`: the byte loops under the frame header. */
module BigEndian {

  type Byte = x: int | 0 <= x < 256

  function Pow256(n: nat): (p: nat)
    ensures p > 0
  {
    if n == 0 then 1 else 256 * Pow256(n - 1)
  }

  function Pow2(n: nat): (p: nat)
    ensures p > 0
  {
    if n == 0 then 1 else 2 * Pow2(n - 1)
  }

  /** The low `n` bytes of `v`, most significant first. */
  function Encode(v: nat, n: nat): (bytes: seq<Byte>)
    ensures |bytes| == n
  {
    if n == 0 then [] else Encode(v / 256, n - 1) + [v % 256]
  }

  function Decode(bytes: seq<Byte>): nat {
    if bytes == [] then 0 else 256 * Decode(bytes[..|bytes| - 1]) + bytes[|bytes| - 1]
  }

  lemma {:induction false} DecodeEncode(v: nat, n: nat)
    ensures Decode(Encode(v, n)) == v % Pow256(n)
  {
    if n == 0 {
    } else {
      DecodeEncode(v / 256, n - 1);
      assert Encode(v, n)[..n - 1] == Encode(v / 256, n - 1);
      ModSplit(v, Pow256(n - 1));
    }
  }

  lemma ModSplit(v: nat, p: nat)
    requires p > 0
    ensures 256 * ((v / 256) % p) + v % 256 == v % (256 * p)
  {
    var q, r := v / 256 / p, v / 256 % p;
    assert v / 256 == q * p + r;
    assert v == (256 * p) * q + (256 * r + v % 256) by {
      assert 256 * (q * p) == (256 * p) * q;
    }
    ModUnique(v, 256 * p, q, 256 * r + v % 256);
  }

  lemma {:induction false} MulGrows(m: nat, a: nat, b: nat)
    requires a <= b
    ensures m * a <= m * b
    decreases b
  {
    if a == b {
    } else {
      MulGrows(m, a, b - 1);
    }
  }

  lemma ModUnique(v: nat, m: nat, q: nat, r: nat)
    requires v == m * q + r && r < m
    ensures v % m == r && v / m == q
  {
    var q', r' := v / m, v % m;
    assert v == m * q' + r' && r' < m;
    if q < q' {
      MulGrows(m, q + 1, q');
    } else if q' < q {
      MulGrows(m, q' + 1, q);
    }
  }

  lemma SmallMod(x: nat, m: nat)
    requires x < m
    ensures x % m == x
  {
    ModUnique(x, m, 0, x);
  }

  lemma {:induction false} EncodeDecode(bytes: seq<Byte>)
    ensures Encode(Decode(bytes), |bytes|) == bytes && Decode(bytes) < Pow256(|bytes|)
  {
    if bytes == [] {
    } else {
      var n := |bytes| - 1;
      EncodeDecode(bytes[..n]);
      assert bytes == bytes[..n] + [bytes[n]];
    }
  }

  lemma {:induction false} Pow256IsPow2(n: nat)
    ensures Pow256(n) == Pow2(8 * n)
  {
    if n == 0 {
    } else {
      Pow256IsPow2(n - 1);
      var k := 8 * n - 8;
      assert Pow2(k + 8) == 2 * Pow2(k + 7) == 4 * Pow2(k + 6) == 8 * Pow2(k + 5) == 16 * Pow2(k + 4);
      assert Pow2(k + 4) == 2 * Pow2(k + 3) == 4 * Pow2(k + 2) == 8 * Pow2(k + 1) == 16 * Pow2(k);
    }
  }

  /** Each byte is what the loop computes for it: the value shifted right, and masked. */
  lemma {:induction false} EncodeAt(v: nat, n: nat, i: nat)
    requires i < n
    ensures Encode(v, n)[i] == v / Pow256(n - 1 - i) % 256
  {
    if i == n - 1 {
    } else {
      EncodeAt(v / 256, n - 1, i);
      DivSplit(v, Pow256(n - 2 - i));
    }
  }

  lemma DivSplit(v: nat, p: nat)
    requires p > 0
    ensures v / 256 / p == v / (256 * p)
  {
    var q, r := v / 256 / p, v / 256 % p;
    assert v / 256 == q * p + r;
    assert v == (256 * p) * q + (256 * r + v % 256) by {
      assert 256 * (q * p) == (256 * p) * q;
    }
    ModUnique(v, 256 * p, q, 256 * r + v % 256);
  }

  lemma {:induction false} DecodeConcat(a: seq<Byte>, b: seq<Byte>)
    ensures Decode(a + b) == Decode(a) * Pow256(|b|) + Decode(b)
  {
    if b == [] {
      assert a + b == a;
    } else {
      var n := |b| - 1;
      DecodeConcat(a, b[..n]);
      assert (a + b)[..|a| + n] == a + b[..n];
      assert 256 * (Decode(a) * Pow256(n)) == Decode(a) * Pow256(n + 1);
    }
  }

  lemma {:induction false} Pow256Monotone(m: nat, n: nat)
    requires m <= n
    ensures Pow256(m) <= Pow256(n)
  {
    if m == n {
    } else {
      Pow256Monotone(m, n - 1);
    }
  }

  /** `src` is a value of an unsigned integer type. */
  method ToBigEndian(dest: array<Byte>, numBytes: nat, src: nat)
    requires numBytes <= dest.Length
    modifies dest
    ensures dest[..numBytes] == Encode(src, numBytes)
    ensures dest[numBytes..] == old(dest[numBytes..])
  {
    var bitsToShift := numBytes * 8;
    var i := 0;
    while i < numBytes
      invariant i <= numBytes && bitsToShift == 8 * (numBytes - i)
      invariant forall k :: 0 <= k < i ==> dest[k] == Encode(src, numBytes)[k]
      invariant dest[numBytes..] == old(dest[numBytes..])
    {
      bitsToShift := bitsToShift - 8;
      Pow256IsPow2(numBytes - 1 - i);
      EncodeAt(src, numBytes, i);
      dest[i] := src / Pow2(bitsToShift) % 256;
      i := i + 1;
    }
  }

  /**
   The result type is an unsigned integer of `width` bytes: every shift and every sum wraps around. Shifts beyond the
   width are undefined in the program.
   */
  method FromBigEndian(bytes: seq<Byte>, numBytes: nat, width: nat) returns (result: nat)
    requires numBytes <= |bytes| && numBytes <= width
    ensures result == Decode(bytes[..numBytes])
  {
    result := 0;
    var bitsToShift := numBytes * 8;
    var i := 0;
    while i < numBytes
      invariant i <= numBytes && bitsToShift == 8 * (numBytes - i)
      invariant result == Decode(bytes[..i]) * Pow256(numBytes - i)
    {
      bitsToShift := bitsToShift - 8;
      ghost var rest := numBytes - 1 - i;
      Pow256IsPow2(rest);
      NoWrap(bytes[..numBytes], i, width);
      assert bytes[..numBytes][i] == bytes[i] && bytes[..numBytes][..i] == bytes[..i];
      assert bytes[..numBytes][..i + 1] == bytes[..i + 1];
      SmallMod(bytes[i] * Pow256(rest), Pow256(width));
      SmallMod(result + bytes[i] * Pow256(rest), Pow256(width));
      result := (result + bytes[i] * Pow2(bitsToShift) % Pow256(width)) % Pow256(width);
      i := i + 1;
    }
  }

  /** The partial sums of `FromBigEndian` stay below the modulus. */
  lemma NoWrap(bytes: seq<Byte>, i: nat, width: nat)
    requires i < |bytes| <= width
    ensures var rest := |bytes| - 1 - i;
      var sum := Decode(bytes[..i]) * Pow256(rest + 1) + bytes[i] * Pow256(rest);
      && sum == Decode(bytes[..i + 1]) * Pow256(rest)
      && sum < Pow256(width) && bytes[i] * Pow256(rest) < Pow256(width)
  {
    var rest := |bytes| - 1 - i;
    var p := Pow256(rest);
    assert bytes[..i + 1][..i] == bytes[..i];
    var d, e := Decode(bytes[..i]), Decode(bytes[..i + 1]);
    assert e == 256 * d + bytes[i];
    assert d * (256 * p) + bytes[i] * p == (256 * d + bytes[i]) * p;
    var tail := bytes[i + 1..];
    DecodeConcat(bytes[..i + 1], tail);
    assert bytes[..i + 1] + tail == bytes;
    EncodeDecode(bytes);
    Pow256Monotone(|bytes|, width);
    assert 0 <= d * (256 * p);
  }
}
