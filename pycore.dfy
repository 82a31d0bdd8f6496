// Shared vocabulary: the Python exceptions the modelled code raises, the
// result wrapper that replaces raising, and small list, string and dictionary
// helpers with the semantics of the Python built-ins they stand for.

module PyCore {

  datatype Option<+T> = None | Some(value: T)

  /** The exception classes raised by the modelled code (messages are not modelled). */
  datatype PyError =
    | TypeError
    | IndexError
    | ValueError
    | KeyError
    | NameError
    | ZeroDivisionError
    | Exception   // a bare `raise Exception(...)`

  /** A call either returns a value or raises one of the exceptions above. */
  datatype Result<+T> = Ok(value: T) | Err(error: PyError)

  /** Python's int() on a float: truncation toward zero. */
  function Trunc(r: real): (n: int)
    ensures r >= 0.0 ==> n as real <= r < n as real + 1.0
    ensures r < 0.0 ==> n as real - 1.0 < r <= n as real
  {
    if r >= 0.0 then r.Floor else -((-r).Floor)
  }

  /** A count `n / 2` handed to np.linspace: Python 3 divides to a float,
      and linspace takes `int()` of it, truncating toward zero, so -1 gives 0. */
  function HalfCount(n: int): (h: int)
    ensures h == Trunc((n as real) / 2.0)
    ensures h < 0 <==> n <= -2
  {
    var r := (n as real) / 2.0;
    if n >= 0 then
      assert r == ((n / 2) as real) + ((n % 2) as real) / 2.0;
      n / 2
    else
      assert -r == (((-n) / 2) as real) + (((-n) % 2) as real) / 2.0;
      -((-n) / 2)
  }

  /** Where a Python slice bound `i` lands in a list of length `n`. */
  function SliceBound(i: int, n: nat): (b: nat)
    ensures b <= n
    ensures 0 <= i <= n ==> b == i
  {
    if i < 0 then (if i + n < 0 then 0 else i + n) else if i > n then n else i
  }

  /** Python's `s[a:b]` for integer bounds that may be negative or past the end. */
  function PySlice<T>(s: seq<T>, a: int, b: int): (r: seq<T>)
    ensures 0 <= a <= b <= |s| ==> r == s[a..b]
    ensures |r| <= |s|
  {
    var lo, hi := SliceBound(a, |s|), SliceBound(b, |s|);
    if lo < hi then s[lo..hi] else []
  }
}

module Seqs {
  import opened PyCore

  /** Sum of a list, accumulated left to right. */
  function Sum(s: seq<real>): real
  {
    if |s| == 0 then 0.0 else Sum(s[..|s| - 1]) + s[|s| - 1]
  }

  lemma {:induction false} SumAppend(a: seq<real>, b: seq<real>)
    ensures Sum(a + b) == Sum(a) + Sum(b)
    decreases |b|
  {
    if |b| == 0 {
      assert a + b == a;
    } else {
      assert (a + b)[..|a + b| - 1] == a + b[..|b| - 1];
      SumAppend(a, b[..|b| - 1]);
    }
  }

  /** Python's min() of a non-empty list. */
  function MinOf(s: seq<real>): (m: real)
    requires |s| > 0
    ensures m in s
    ensures forall i :: 0 <= i < |s| ==> m <= s[i]
  {
    if |s| == 1 then s[0]
    else
      var rest := MinOf(s[1..]);
      if s[0] <= rest then s[0] else rest
  }

  /** Python's max() of a non-empty list. */
  function MaxOf(s: seq<real>): (m: real)
    requires |s| > 0
    ensures m in s
    ensures forall i :: 0 <= i < |s| ==> s[i] <= m
  {
    if |s| == 1 then s[0]
    else
      var rest := MaxOf(s[1..]);
      if s[0] >= rest then s[0] else rest
  }

  /** `s.index(min(s))`: the first position holding the smallest element. */
  function FirstMinIndex(s: seq<real>): (k: nat)
    requires |s| > 0
    ensures k < |s|
    ensures forall i :: 0 <= i < |s| ==> s[k] <= s[i]
    ensures forall i :: 0 <= i < k ==> s[k] < s[i]
  {
    if |s| == 1 then 0
    else
      var rest := FirstMinIndex(s[1..]);
      if s[0] <= s[1..][rest] then 0 else rest + 1
  }

  /** numpy.linspace(start, stop, num) with the default endpoint=True. */
  function Linspace(start: real, stop: real, num: int): (r: Result<seq<real>>)
    ensures r.Err? <==> num < 0
    ensures r.Err? ==> r.error == ValueError
    ensures r.Ok? ==> |r.value| == num
    ensures r.Ok? && num >= 1 ==> r.value[0] == start
    ensures r.Ok? && num >= 2 ==> r.value[num - 1] == stop
  {
    if num < 0 then Err(ValueError)
    else if num == 1 then Ok([start])
    else
      var r := seq(num, i => LinspacePoint(start, stop, i as real, (num - 1) as real));
      assert num >= 2 ==> r[num - 1] == stop by {
        if num >= 2 {
          LinspaceEnd(start, stop, (num - 1) as real);
        }
      }
      Ok(r)
  }

  /** The point `start + (stop - start) * i / n` of a linspace with n steps. */
  function LinspacePoint(start: real, stop: real, i: real, n: real): real
    requires n != 0.0
  {
    start + (stop - start) * i / n
  }

  /** The last step of a linspace lands on stop. */
  lemma LinspaceEnd(start: real, stop: real, n: real)
    requires n != 0.0
    ensures LinspacePoint(start, stop, n, n) == stop
  {
    assert (stop - start) * n / n == stop - start;
  }

  /** A rectangular matrix: every row as long as the first. */
  ghost predicate Rect(m: seq<seq<real>>)
  {
    forall i :: 0 <= i < |m| ==> |m[i]| == |m[0]|
  }

  /** Number of columns of a rectangular matrix (0 for no rows). */
  function Cols(m: seq<seq<real>>): nat
  {
    if |m| == 0 then 0 else |m[0]|
  }

  /** numpy's `.T` of a rectangular 2-D array. */
  function Transpose(m: seq<seq<real>>): (t: seq<seq<real>>)
    requires Rect(m)
    ensures |t| == Cols(m)
    ensures forall j :: 0 <= j < |t| ==> |t[j]| == |m|
    ensures forall j, i :: 0 <= j < |t| && 0 <= i < |m| ==> t[j][i] == m[i][j]
  {
    if |m| == 0 then [] else seq(|m[0]|, j requires 0 <= j < |m[0]| => seq(|m|, i requires 0 <= i < |m| => m[i][j]))
  }

  lemma {:induction false} TransposeTwice(m: seq<seq<real>>)
    requires Rect(m) && (|m| == 0 || |m[0]| > 0)
    ensures Rect(Transpose(m)) && Transpose(Transpose(m)) == m
  {
    var t := Transpose(m);
    assert Rect(t);
    var tt := Transpose(t);
    assert |tt| == |m|;
    forall i | 0 <= i < |m|
      ensures tt[i] == m[i]
    {
      assert |tt[i]| == |m[i]|;
    }
  }

  /** The contents of a 2-D array as a list of rows. */
  ghost function Contents(a: array2<real>): (m: seq<seq<real>>)
    reads a
    ensures |m| == a.Length0 && Rect(m)
    ensures forall i :: 0 <= i < |m| ==> |m[i]| == a.Length1
    ensures forall i, j :: 0 <= i < a.Length0 && 0 <= j < a.Length1 ==> m[i][j] == a[i, j]
  {
    seq(a.Length0, i requires 0 <= i < a.Length0 reads a =>
      seq(a.Length1, j requires 0 <= j < a.Length1 reads a => a[i, j]))
  }
}

module PyStr {
  import opened PyCore

  function Repeat(s: string, n: nat): (r: string)
    ensures |r| == n * |s|
  {
    if n == 0 then "" else Repeat(s, n - 1) + s
  }

  /** Python's `s[:-k]` for k >= 1: everything but the last k characters. */
  function DropLast(s: string, k: nat): (r: string)
    requires k >= 1
    ensures |s| >= k ==> r == s[..|s| - k]
    ensures |s| < k ==> r == ""
  {
    PySlice(s, 0, -(k as int))
  }

  /** Number of occurrences of `c` in `s`. */
  function Count(s: string, c: char): nat
  {
    if |s| == 0 then 0 else Count(s[..|s| - 1], c) + (if s[|s| - 1] == c then 1 else 0)
  }

  lemma {:induction false} CountAppend(a: string, b: string, c: char)
    ensures Count(a + b, c) == Count(a, c) + Count(b, c)
    decreases |b|
  {
    if |b| == 0 {
      assert a + b == a;
    } else {
      assert (a + b)[..|a + b| - 1] == a + b[..|b| - 1];
      CountAppend(a, b[..|b| - 1], c);
    }
  }

  lemma {:induction false} CountAbsent(s: string, c: char)
    requires c !in s
    ensures Count(s, c) == 0
  {
    if |s| > 0 {
      assert c !in s[..|s| - 1];
      CountAbsent(s[..|s| - 1], c);
    }
  }

  lemma {:induction false} CountRepeat(s: string, n: nat, c: char)
    ensures Count(Repeat(s, n), c) == n * Count(s, c)
  {
    if n > 0 {
      var k := Count(s, c);
      CountRepeat(s, n - 1, c);
      CountAppend(Repeat(s, n - 1), s, c);
      assert (n - 1) * k + k == n * k;
    }
  }

  /** `'{0:{1}}'.format(s, w)`: left-aligned, padded with spaces to width w, never cut. */
  function PadRight(s: string, w: nat): (r: string)
    ensures |r| == if |s| >= w then |s| else w
    ensures r[..|s|] == s
  {
    if |s| >= w then s else s + Repeat(" ", w - |s|)
  }

  /** `sep.join(parts)`. */
  function Join(sep: string, parts: seq<string>): string
  {
    if |parts| == 0 then ""
    else if |parts| == 1 then parts[0]
    else Join(sep, parts[..|parts| - 1]) + sep + parts[|parts| - 1]
  }

  /** Python's `s.split(c)` with an explicit one-character separator. */
  function Split(s: string, c: char): (r: seq<string>)
    ensures |r| == Count(s, c) + 1
    ensures forall i :: 0 <= i < |r| ==> c !in r[i]
  {
    if |s| == 0 then [""]
    else
      var init := Split(s[..|s| - 1], c);
      if s[|s| - 1] == c then init + [""]
      else init[..|init| - 1] + [init[|init| - 1] + [s[|s| - 1]]]
  }

  lemma {:induction false} SplitNoSeparator(s: string, c: char)
    requires c !in s
    ensures Split(s, c) == [s]
  {
    if |s| > 0 {
      assert c !in s[..|s| - 1];
      SplitNoSeparator(s[..|s| - 1], c);
      assert s[..|s| - 1] + [s[|s| - 1]] == s;
    }
  }
}

module PyDict {
  import opened PyCore

  /** An insertion-ordered Python dict: its items in order, keys distinct. */
  type Dict<K, V> = seq<(K, V)>

  function Keys<K, V>(d: Dict<K, V>): (ks: seq<K>)
    ensures |ks| == |d|
    ensures forall i :: 0 <= i < |d| ==> ks[i] == d[i].0
  {
    seq(|d|, i requires 0 <= i < |d| => d[i].0)
  }

  function Values<K, V>(d: Dict<K, V>): (vs: seq<V>)
    ensures |vs| == |d|
    ensures forall i :: 0 <= i < |d| ==> vs[i] == d[i].1
  {
    seq(|d|, i requires 0 <= i < |d| => d[i].1)
  }

  ghost predicate DistinctKeys<K, V>(d: Dict<K, V>)
  {
    forall i, j :: 0 <= i < j < |d| ==> d[i].0 != d[j].0
  }

  /** `d.get(k)`. */
  function Get<K(==), V>(d: Dict<K, V>, k: K): (r: Option<V>)
    ensures r.None? <==> k !in Keys(d)
    ensures r.Some? ==> exists i :: 0 <= i < |d| && d[i] == (k, r.value)
  {
    if |d| == 0 then None
    else if d[|d| - 1].0 == k then Some(d[|d| - 1].1)
    else
      assert Keys(d[..|d| - 1]) == Keys(d)[..|d| - 1];
      Get(d[..|d| - 1], k)
  }

  lemma {:induction false} GetAt<K, V>(d: Dict<K, V>, i: nat)
    requires DistinctKeys(d) && i < |d|
    ensures Get(d, d[i].0) == Some(d[i].1)
  {
    if i < |d| - 1 {
      assert DistinctKeys(d[..|d| - 1]);
      GetAt(d[..|d| - 1], i);
    }
  }

  /** `d[k] = v`: overwrite in place when present, otherwise append. */
  function Put<K(==,!new), V>(d: Dict<K, V>, k: K, v: V): (r: Dict<K, V>)
    requires DistinctKeys(d)
    ensures DistinctKeys(r)
    ensures Get(r, k) == Some(v)
    ensures k in Keys(d) ==> |r| == |d| && Keys(r) == Keys(d)
    ensures k !in Keys(d) ==> r == d + [(k, v)]
    ensures forall k' :: k' != k ==> Get(r, k') == Get(d, k')
  {
    if k in Keys(d) then
      var i :| 0 <= i < |d| && d[i].0 == k;
      var r := d[i := (k, v)];
      assert Keys(r) == Keys(d);
      GetAt(r, i);
      GetUpdate(d, i, v);
      r
    else
      var r := d + [(k, v)];
      assert Keys(r) == Keys(d) + [k];
      GetAt(r, |d|);
      assert r[..|r| - 1] == d;
      r
  }

  lemma {:induction false} GetUpdate<K, V>(d: Dict<K, V>, i: nat, v: V)
    requires DistinctKeys(d) && i < |d|
    ensures forall k' :: k' != d[i].0 ==> Get(d[i := (d[i].0, v)], k') == Get(d, k')
  {
    var r := d[i := (d[i].0, v)];
    forall k' | k' != d[i].0
      ensures Get(r, k') == Get(d, k')
    {
      if |d| > 0 && i < |d| - 1 {
        assert r[..|r| - 1] == d[..|d| - 1][i := (d[i].0, v)];
        assert DistinctKeys(d[..|d| - 1]);
        GetUpdate(d[..|d| - 1], i, v);
      } else {
        assert r[..|r| - 1] == d[..|d| - 1];
      }
    }
  }
}
