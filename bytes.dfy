/**
  Byte strings, shared by the SHA-256 model and the rollup-proof codec.
  `Flatten` is `Buffer.concat` (and `Array.prototype.flat`); `Window` is
  `Buffer.slice`, which silently truncates a range that runs past the end.
 */
module Bytes {

  /** An octet (`uint8_t`, an element of a `Buffer`). */
  type Byte = b: int | 0 <= b < 256
  type Bytes = seq<Byte>

  datatype Option<+T> = None | Some(value: T)

  function Min(a: int, b: int): int { if a <= b then a else b }

  /** `n` zero bytes (`Buffer.alloc(n)`). */
  function Zeros(n: nat): (z: Bytes)
    ensures |z| == n && forall i :: 0 <= i < n ==> z[i] == 0
  {
    seq(n, _ => 0)
  }

  /** Concatenation of a list of strings, in order. */
  function Flatten<T>(xss: seq<seq<T>>): seq<T>
  {
    if xss == [] then [] else xss[0] + Flatten(xss[1..])
  }

  /** Every element of `xss` has exactly `w` entries. */
  predicate AllWidth<T>(xss: seq<seq<T>>, w: nat)
  {
    forall i :: 0 <= i < |xss| ==> |xss[i]| == w
  }

  lemma {:induction false} FlattenAppend<T>(xss: seq<seq<T>>, yss: seq<seq<T>>)
    ensures Flatten(xss + yss) == Flatten(xss) + Flatten(yss)
  {
    if xss == [] {
      assert xss + yss == yss;
    } else {
      assert (xss + yss)[1..] == xss[1..] + yss;
      FlattenAppend(xss[1..], yss);
    }
  }

  lemma AppendOne<T>(a: seq<T>, x: T, b: seq<T>)
    ensures a + [x] + b == a + ([x] + b)
  {
  }

  lemma Regroup<T>(a: seq<T>, b: seq<T>, c: seq<T>, d: seq<T>)
    ensures a + (b + c) + d == (a + b) + c + d == a + b + (c + d)
  {
  }

  /** Concatenating `xss`, then `x`, then `yss` and `zss`. */
  lemma FlattenAround<T>(xss: seq<seq<T>>, x: seq<T>, yss: seq<seq<T>>, zss: seq<seq<T>>)
    ensures Flatten(xss + [x] + yss + zss) == Flatten(xss) + x + Flatten(yss) + Flatten(zss)
  {
    FlattenAppend(xss + [x] + yss, zss);
    FlattenAppend(xss + [x], yss);
    FlattenAppend(xss, [x]);
    assert Flatten([x]) == x + [];
  }

  lemma {:induction false} FlattenUniformLength<T>(xss: seq<seq<T>>, w: nat)
    requires AllWidth(xss, w)
    ensures |Flatten(xss)| == |xss| * w
  {
    if xss != [] {
      FlattenUniformLength(xss[1..], w);
    }
  }

  /** In a concatenation of pieces of width `w`, piece `k` sits at `w * k`. */
  lemma {:induction false} FlattenUniformSlice<T>(xss: seq<seq<T>>, w: nat, k: nat)
    requires AllWidth(xss, w) && k < |xss|
    ensures w * k + w <= |Flatten(xss)|
    ensures Flatten(xss)[w * k..w * k + w] == xss[k]
  {
    FlattenUniformLength(xss, w);
    assert w * |xss| == w * (|xss| - 1 - k) + w * k + w;
    if k > 0 {
      FlattenUniformSlice(xss[1..], w, k - 1);
      assert w * k == w + w * (k - 1);
      var rest := Flatten(xss[1..]);
      assert Flatten(xss) == xss[0] + rest;
      assert Flatten(xss)[w * k..w * k + w] == rest[w * (k - 1)..w * (k - 1) + w];
    }
  }

  /** A slice that lies inside the first part of a concatenation. */
  lemma SliceOfPrefix<T>(a: seq<T>, b: seq<T>, i: nat, j: nat)
    requires i <= j <= |a|
    ensures (a + b)[i..j] == a[i..j]
  {
  }

  /** A slice that lies inside the second part of a concatenation. */
  lemma SliceOfSuffix<T>(a: seq<T>, b: seq<T>, i: nat, j: nat)
    requires i <= j <= |b|
    ensures (a + b)[|a| + i..|a| + j] == b[i..j]
  {
  }

  /** `buf.slice(start, start + width)`: at most `width` bytes, fewer near the end. */
  function Window(buf: Bytes, start: nat, width: nat): (r: Bytes)
    ensures |r| == if start >= |buf| then 0 else Min(width, |buf| - start)
    ensures start + width <= |buf| ==> r == buf[start..start + width]
  {
    buf[Min(start, |buf|)..Min(start + width, |buf|)]
  }

  /** `n` consecutive windows of `w` bytes from `start` on. */
  function Windows(buf: Bytes, start: nat, w: nat, n: nat): (ws: seq<Bytes>)
    ensures |ws| == n
    decreases n
  {
    if n == 0 then [] else [Window(buf, start, w)] + Windows(buf, start + w, w, n - 1)
  }

  /** Where the `i`-th of consecutive `w`-byte windows from `start` begins. */
  function WindowStart(start: nat, w: nat, i: nat): nat
  {
    start + w * i
  }

  /** The `i`-th of those windows starts `w * i` bytes after `start`. */
  lemma {:induction false} WindowsIndex(buf: Bytes, start: nat, w: nat, n: nat, i: nat)
    requires i < n
    ensures Windows(buf, start, w, n)[i] == Window(buf, WindowStart(start, w, i), w)
    decreases i
  {
    if i > 0 {
      var rest := Windows(buf, start + w, w, n - 1);
      assert Windows(buf, start, w, n) == [Window(buf, start, w)] + rest;
      WindowsIndex(buf, start + w, w, n - 1, i - 1);
      StepStart(start, w, i);
    }
  }

  lemma WindowsAt(buf: Bytes, start: nat, w: nat, n: nat)
    ensures forall i :: 0 <= i < n ==> Windows(buf, start, w, n)[i] == Window(buf, WindowStart(start, w, i), w)
  {
    forall i | 0 <= i < n
      ensures Windows(buf, start, w, n)[i] == Window(buf, WindowStart(start, w, i), w)
    {
      WindowsIndex(buf, start, w, n, i);
    }
  }

  /** Windows that fit in the buffer cover its bytes from `start` to `start + w * n`. */
  lemma {:induction false} FlattenWindows(buf: Bytes, start: nat, w: nat, n: nat)
    requires start + w * n <= |buf|
    ensures Flatten(Windows(buf, start, w, n)) == buf[start..start + w * n]
    decreases n
  {
    if n > 0 {
      Distribute(w, 1, n - 1);
      FlattenWindows(buf, start + w, w, n - 1);
      assert buf[start..start + w * n] == buf[start..start + w] + buf[start + w..start + w * n];
    }
  }

  /** A window that lies inside the middle part of a concatenation. */
  lemma WindowOfMiddle(a: Bytes, b: Bytes, c: Bytes, i: nat, n: nat)
    requires i + n <= |b|
    ensures Window(a + b + c, |a| + i, n) == b[i..i + n]
  {
    assert (a + b + c)[|a| + i..|a| + i + n] == b[i..i + n];
  }

  // ---------------------------------------------------------------------------
  // Big-endian integers
  // ---------------------------------------------------------------------------

  function Pow256(k: nat): (p: nat)
    ensures p > 0
  {
    if k == 0 then 1 else 256 * Pow256(k - 1)
  }

  /** The unsigned integer whose big-endian bytes are `s`. */
  function BigEndian(s: Bytes): (n: nat)
    ensures n < Pow256(|s|)
  {
    if s == [] then 0 else BigEndian(s[..|s| - 1]) * 256 + s[|s| - 1]
  }

  /** The `k` big-endian bytes of `n`, keeping only its low `8 * k` bits. */
  function ToBigEndian(n: nat, k: nat): (s: Bytes)
    ensures |s| == k
  {
    if k == 0 then [] else ToBigEndian(n / 256, k - 1) + [n % 256]
  }

  /** Reading back `k` big-endian bytes gives the number, when it fits. */
  lemma {:induction false} BigEndianOfToBigEndian(n: nat, k: nat)
    requires n < Pow256(k)
    ensures BigEndian(ToBigEndian(n, k)) == n
  {
    if k > 0 {
      var s := ToBigEndian(n, k);
      DivLess(n, 256, Pow256(k - 1));
      BigEndianOfToBigEndian(n / 256, k - 1);
      assert s[..k - 1] == ToBigEndian(n / 256, k - 1);
    }
  }

  /** Writing out the value of `s` in `|s|` bytes gives `s` back. */
  lemma {:induction false} ToBigEndianOfBigEndian(s: Bytes)
    ensures ToBigEndian(BigEndian(s), |s|) == s
  {
    if s != [] {
      var init := s[..|s| - 1];
      var n := BigEndian(s);
      assert n / 256 == BigEndian(init) && n % 256 == s[|s| - 1];
      ToBigEndianOfBigEndian(init);
      assert s == init + [s[|s| - 1]];
    }
  }

  /** Byte `i` of `ToBigEndian(n, k)` is digit `k - 1 - i` of `n` in base 256. */
  lemma {:induction false} ToBigEndianDigit(n: nat, k: nat, i: nat)
    requires i < k
    ensures ToBigEndian(n, k)[i] == (n / Pow256(k - 1 - i)) % 256
  {
    if i < k - 1 {
      ToBigEndianDigit(n / 256, k - 1, i);
      DivDiv(n, 256, Pow256(k - 2 - i));
    }
  }

  // ---------------------------------------------------------------------------
  // Facts about integer division
  // ---------------------------------------------------------------------------

  lemma MulAtLeast(d: nat, k: int)
    ensures k >= 1 ==> d * k >= d
  {
    if k >= 1 {
      assert d * k == d * (k - 1) + d;
    }
  }

  lemma MulSucc(n: nat, d: nat)
    ensures (n + 1) * d == d + n * d
  {
  }

  lemma StepStart(start: nat, w: nat, i: nat)
    requires i > 0
    ensures start + w + w * (i - 1) == start + w * i
  {
    Distribute(w, 1, i - 1);
  }

  lemma Distribute(a: nat, y: nat, z: nat)
    ensures a * (y + z) == a * y + a * z && a * z >= 0
  {
  }

  lemma MulMonotone(d: nat, q: nat, m: nat)
    ensures q >= m ==> d * q >= d * m
  {
    if q >= m {
      Distribute(d, m, q - m);
    }
  }

  lemma DivLess(n: nat, d: nat, m: nat)
    requires d > 0 && n < d * m
    ensures n / d < m
  {
    assert n == d * (n / d) + n % d;
    MulMonotone(d, n / d, m);
  }

  /** Division is determined by any quotient and remainder that fit. */
  lemma DivUnique(x: nat, d: nat, q: int, r: int)
    requires d > 0 && x == d * q + r && 0 <= r < d
    ensures x / d == q
  {
    var q0, r0 := x / d, x % d;
    assert d * (q - q0) == r0 - r by {
      assert d * (q - q0) == d * q - d * q0;
    }
    assert d * (q0 - q) == r - r0;
    MulAtLeast(d, q - q0);
    MulAtLeast(d, q0 - q);
  }

  lemma DivDiv(x: nat, a: nat, b: nat)
    requires a > 0 && b > 0
    ensures x / (a * b) == (x / a) / b
  {
    var q: nat, r: nat := x / a, x % a;
    var q2: nat, r2: nat := q / b, q % b;
    assert x == a * q + r;
    assert q == b * q2 + r2;
    assert a * q == (a * b) * q2 + a * r2 by {
      Distribute(a, b * q2, r2);
    }
    assert a * r2 + r < a * b by {
      Distribute(a, r2, b - 1 - r2);
      assert a * (b - 1) == a * b - a;
    }
    DivUnique(x, a * b, q2, a * r2 + r);
  }
}
