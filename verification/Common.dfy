/** Bytes, sequence folds and C++ integer conversions shared by all modules. */
module Common {

  datatype Option<+T> = None | Some(value: T)

  type byte = b: int | 0 <= b < 256

  /** A big-endian unsigned 16-bit number. */
  function U16(high: byte, low: byte): nat
  {
    256 * (high as int) + low as int
  }

  /** Concatenation of a list of sequences. */
  function Flatten<T>(xs: seq<seq<T>>): seq<T>
  {
    if xs == [] then [] else xs[0] + Flatten(xs[1..])
  }

  lemma {:induction false} FlattenAppend<T>(xs: seq<seq<T>>, ys: seq<seq<T>>)
    ensures Flatten(xs + ys) == Flatten(xs) + Flatten(ys)
  {
    if xs == [] {
      assert xs + ys == ys;
    } else {
      assert (xs + ys)[1..] == xs[1..] + ys;
      FlattenAppend(xs[1..], ys);
    }
  }

  lemma FlattenSnoc<T>(xs: seq<seq<T>>, x: seq<T>)
    ensures Flatten(xs + [x]) == Flatten(xs) + x
  {
    FlattenAppend(xs, [x]);
    assert Flatten([x]) == x + Flatten<T>([]);
  }

  lemma SliceOfSlice<T>(b: seq<T>, i: nat, k: nat, u: nat, v: nat)
    requires i <= k <= |b| && u <= v <= k - i
    ensures b[i..k][u..v] == b[i + u..i + v]
  {
    var t := b[i..k];
    forall m | 0 <= m < v - u ensures t[u..v][m] == b[i + u..i + v][m] {
      assert t[u..v][m] == t[u + m] == b[i + (u + m)];
    }
  }

  lemma SliceJoin<T>(b: seq<T>, i: nat, j: nat, k: nat)
    requires i <= j <= k <= |b|
    ensures b[i..j] + b[j..k] == b[i..k]
  {
  }

  lemma HeadAndTail<T>(xs: seq<T>, tail: seq<T>, ys: seq<T>)
    requires ys != [] && tail == ys[1..] && xs == [ys[0]] + tail
    ensures xs == ys
  {
  }

  lemma NextOfPrefix<T>(xs: seq<T>, i: nat)
    requires i < |xs|
    ensures xs[..i] + [xs[i]] == xs[..i + 1]
  {
  }

  lemma UpToLast<T>(xs: seq<T>)
    requires xs != []
    ensures xs == xs[..|xs| - 1] + [xs[|xs| - 1]]
  {
  }

  lemma NothingBefore<T>(xs: seq<T>)
    ensures [] + xs == xs
  {
  }

  lemma LastMoves<T>(done: seq<T>, rest: seq<T>)
    requires done != []
    ensures done[..|done| - 1] + ([done[|done| - 1]] + rest) == done + rest
  {
  }

  lemma Associative<T>(a: seq<T>, b: seq<T>, c: seq<T>)
    ensures a + (b + c) == (a + b) + c
  {
  }

  /** The first of what is left becomes the last of what is done. */
  lemma MoveOne<T>(done: seq<T>, x: T, left: seq<T>, rest: seq<T>)
    requires left == [x] + rest
    ensures done + left == (done + [x]) + rest
  {
  }

  lemma PrefixOf<T>(a: seq<T>, b: seq<T>, q: seq<T>)
    requires a + b == q
    ensures |a| <= |q| && a == q[..|a|] && |q| == |a| + |b|
  {
  }

  /** The numbers from one up to another. */
  function Range(from: int, upto: int): seq<int>
  {
    seq(if from < upto then upto - from else 0, i => from + i)
  }

  lemma RangeCons(from: int, upto: int)
    requires from < upto
    ensures Range(from, upto) == [from] + Range(from + 1, upto)
  {
  }

  function Sum(xs: seq<int>): int
  {
    if xs == [] then 0 else xs[0] + Sum(xs[1..])
  }

  lemma {:induction false} SumAppend(xs: seq<int>, ys: seq<int>)
    ensures Sum(xs + ys) == Sum(xs) + Sum(ys)
  {
    if xs == [] {
      assert xs + ys == ys;
    } else {
      assert (xs + ys)[1..] == xs[1..] + ys;
      SumAppend(xs[1..], ys);
    }
  }

  lemma {:induction false} SumNonNegative(xs: seq<int>)
    requires forall i :: 0 <= i < |xs| ==> xs[i] >= 0
    ensures Sum(xs) >= 0
  {
    if xs != [] { SumNonNegative(xs[1..]); }
  }

  /** C++ integer division: truncation toward zero. */
  function TruncDiv(a: int, b: int): int
    requires b > 0
  {
    if a >= 0 then a / b else -((-a) / b)
  }

  /** C++ remainder: the sign of the dividend. */
  function TruncMod(a: int, b: int): int
    requires b > 0
  {
    if a >= 0 then a % b else -((-a) % b)
  }

  /** Conversion to a 16-bit or 32-bit signed integer (two's complement). */
  function ToInt16(x: int): int
  {
    (x + 0x8000) % 0x1_0000 - 0x8000
  }

  function ToInt32(x: int): int
  {
    (x + 0x8000_0000) % 0x1_0000_0000 - 0x8000_0000
  }

  predicate Int32(n: int)
  {
    -0x8000_0000 <= n < 0x8000_0000
  }

  predicate Int64(n: int)
  {
    -0x8000_0000_0000_0000 <= n < 0x8000_0000_0000_0000
  }

  lemma MulMonotone(a: int, b: int, g: int)
    requires a <= b && g > 0
    ensures a * g <= b * g
  {
    assert b * g == a * g + (b - a) * g;
    assert (b - a) * g >= 0;
  }

  /** Quotient and remainder are determined by the division equation. */
  lemma DivModUnique(n: int, q: int, r: int, g: int)
    requires g > 0 && 0 <= r < g && n == q * g + r
    ensures n / g == q && n % g == r
  {
    var q' := n / g;
    assert n == q' * g + n % g;
    assert (q' + 1) * g == q' * g + g && (q + 1) * g == q * g + g;
    if q' < q { MulMonotone(q' + 1, q, g); }
    if q < q' { MulMonotone(q + 1, q', g); }
  }
}
