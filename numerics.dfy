/** Real-number helpers shared by the two Kuramoto modules: an Option type,
    the value of pi the source computes with, truncation toward zero and
    finite sums. */
module Numerics {

  datatype Option<T> = None | Some(value: T)

  /** `np.pi` and `math.pi`: the double closest to pi, taken as an exact real. */
  const PI: real := 3.141592653589793
  /** 2π, exactly twice PI. */
  const TWO_PI: real := 6.283185307179586

  /** k whole turns, 2πk. The factor is written as a numeral (it is TWO_PI)
      so that sums of turns stay linear arithmetic. */
  function Turn(k: int): real
  {
    6.283185307179586 * k as real
  }

  /** The number of whole turns in x, rounded down: floor(x / 2π). */
  function Turns(x: real): int
  {
    (x / 6.283185307179586).Floor
  }

  /** Python's `int(x)` on a float: the integer part, rounded toward zero. */
  function Trunc(x: real): (k: int)
    ensures 0.0 <= x ==> 0 <= k && k as real <= x < k as real + 1.0
    ensures x < 0.0 ==> k <= 0 && k as real - 1.0 < x <= k as real
  {
    if x >= 0.0 then x.Floor else -((-x).Floor)
  }

  /** Dividing t whole turns by π and then by 2, as the source does, gives t back. */
  lemma WholeTurns(t: int)
    ensures Turn(t) / PI / 2.0 == t as real
  {
  }

  /** The sum of a sequence of reals, first element first. */
  function Sum(xs: seq<real>): real
  {
    if xs == [] then 0.0 else xs[0] + Sum(xs[1..])
  }

  lemma {:induction false} SumAppend(a: seq<real>, b: seq<real>)
    ensures Sum(a + b) == Sum(a) + Sum(b)
  {
    if a == [] {
      assert a + b == b;
    } else {
      assert (a + b)[1..] == a[1..] + b;
      SumAppend(a[1..], b);
    }
  }

  /** k copies of c added up. Kept as its own function so that proofs about
      sums of equal terms stay in linear arithmetic; `TimesIsProduct` turns
      it into the product. */
  function Times(k: nat, c: real): real
  {
    if k == 0 then 0.0 else Times(k - 1, c) + c
  }

  lemma {:induction false} TimesIsProduct(k: nat, c: real)
    ensures Times(k, c) == k as real * c
  {
    if k > 0 {
      TimesIsProduct(k - 1, c);
      assert k as real * c == (k - 1) as real * c + c;
    }
  }

  /** A sequence of n copies of c sums to n copies of c. */
  lemma {:induction false} SumConstant(xs: seq<real>, c: real)
    requires forall i :: 0 <= i < |xs| ==> xs[i] == c
    ensures Sum(xs) == Times(|xs|, c)
  {
    if xs != [] {
      SumConstant(xs[1..], c);
      SumTimes(|xs| - 1, c);
    }
  }

  /** Adding one more copy at the front. */
  lemma {:induction false} SumTimes(k: nat, c: real)
    ensures Times(k + 1, c) == c + Times(k, c)
  {
    if k > 0 {
      SumTimes(k - 1, c);
    }
  }

  /** A sequence whose entries after the first, k of them, all equal c sums
      to its first entry plus k copies of c. */
  lemma SumHeadConstant(xs: seq<real>, c: real, k: nat)
    requires |xs| == k + 1
    requires forall i :: 1 <= i < |xs| ==> xs[i] == c
    ensures Sum(xs) == xs[0] + Times(k, c)
  {
    var rest := xs[1..];
    assert forall i :: 0 <= i < |rest| ==> rest[i] == xs[i + 1];
    SumConstant(rest, c);
  }

  /** Putting one element in front adds it to the sum. */
  lemma SumCons(x: real, xs: seq<real>)
    ensures Sum([x] + xs) == x + Sum(xs)
  {
    assert ([x] + xs)[1..] == xs;
  }

  /** Appending one element adds it to the sum. */
  lemma SumSnoc(a: seq<real>, x: real)
    ensures Sum(a + [x]) == Sum(a) + x
  {
    SumAppend(a, [x]);
    assert Sum([x]) == x + Sum([x][1..]);
    assert [x][1..] == [];
  }

  /** A sum of non-negative terms is at least each of its terms, and so is
      non-negative. */
  lemma {:induction false} SumBoundsTerm(xs: seq<real>, i: nat)
    requires forall j :: 0 <= j < |xs| ==> 0.0 <= xs[j]
    ensures 0.0 <= Sum(xs)
    ensures i < |xs| ==> xs[i] <= Sum(xs)
  {
    if xs != [] {
      assert forall j :: 0 <= j < |xs| - 1 ==> xs[1..][j] == xs[j + 1];
      SumBoundsTerm(xs[1..], if i == 0 then 0 else i - 1);
    }
  }

  /** Dividing by a positive number keeps an inequality. */
  lemma DivMonotone(a: real, s: real, n: real)
    requires a <= s && n > 0.0
    ensures a / n <= s / n
  {
  }

  /** A sequence of zeros sums to zero. */
  lemma {:induction false} SumZero(xs: seq<real>)
    requires forall j :: 0 <= j < |xs| ==> xs[j] == 0.0
    ensures Sum(xs) == 0.0
  {
    if xs != [] {
      assert forall j :: 0 <= j < |xs| - 1 ==> xs[1..][j] == xs[j + 1];
      SumZero(xs[1..]);
    }
  }

  /** A sequence that is zero except at position a sums to its entry at a. */
  lemma {:induction false} SumPoint(xs: seq<real>, a: nat)
    requires a < |xs|
    requires forall j :: 0 <= j < |xs| && j != a ==> xs[j] == 0.0
    ensures Sum(xs) == xs[a]
  {
    assert forall j :: 0 <= j < |xs| - 1 ==> xs[1..][j] == xs[j + 1];
    if a == 0 {
      SumZero(xs[1..]);
    } else {
      SumPoint(xs[1..], a - 1);
    }
  }

  /** Sums add up termwise. */
  lemma {:induction false} SumAdd(xs: seq<real>, ys: seq<real>, zs: seq<real>)
    requires |xs| == |ys| == |zs|
    requires forall j :: 0 <= j < |zs| ==> zs[j] == xs[j] + ys[j]
    ensures Sum(zs) == Sum(xs) + Sum(ys)
  {
    if zs != [] {
      assert forall j :: 0 <= j < |zs| - 1 ==>
        zs[1..][j] == zs[j + 1] && xs[1..][j] == xs[j + 1] && ys[1..][j] == ys[j + 1];
      SumAdd(xs[1..], ys[1..], zs[1..]);
    }
  }

  /** Scaling by a non-zero factor and dividing by it again gives the value
      back. */
  lemma CancelFactor(s: real, w: real)
    requires w != 0.0
    ensures s * w / w == s && w * s / w == s
  {
  }

  /** Negating a factor negates the product. */
  lemma NegateProduct(x: real, y: real, w: real)
    requires y == -x
    ensures -(x * w) == y * w
  {
  }
}
