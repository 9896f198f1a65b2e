/** Value types and small sequence/string utilities shared by every part of the model. */
module Common {

  datatype Option<+T> = None | Some(value: T) {
    function GetOr(default: T): T {
      match this
      case Some(v) => v
      case None => default
    }
  }

  datatype Result<+T, +E> = Success(value: T) | Failure(error: E)

  /** A floating-point number, kept as its bit pattern: the model never computes with it. */
  datatype Float = Float(bits: bv64)

  /** An embedding vector. */
  type Vector = seq<Float>

  function Min(a: int, b: int): int {
    if a <= b then a else b
  }

  // ---------------------------------------------------------------------------
  // Python slicing

  /** How Python normalises one bound of a slice `s[i:j]` on a sequence of length n. */
  function SliceBound(i: int, n: nat): nat {
    if i < 0 then (if i + n < 0 then 0 else i + n)
    else if i > n then n
    else i
  }

  /** Python's `s[i:j]`, negative and out-of-range bounds included. */
  function PySlice<T>(s: seq<T>, i: int, j: int): seq<T> {
    var a, b := SliceBound(i, |s|), SliceBound(j, |s|);
    if a < b then s[a..b] else []
  }

  lemma TakeSnoc<T>(s: seq<T>, i: int)
    requires 0 <= i < |s|
    ensures s[..i + 1] == s[..i] + [s[i]]
  {
  }

  lemma AppendAssoc<T>(a: seq<T>, b: seq<T>, c: seq<T>)
    ensures (a + b) + c == a + (b + c)
  {
  }

  lemma PySliceInRange<T>(s: seq<T>, i: int, j: int)
    requires 0 <= i <= j <= |s|
    ensures PySlice(s, i, j) == s[i..j]
  {
  }

  lemma PySlicePrefix<T>(s: seq<T>, n: nat)
    ensures PySlice(s, 0, n) == s[..Min(n, |s|)]
  {
  }

  // ---------------------------------------------------------------------------
  // Ceiling division

  /** `ceil(a / b)` for a positive divisor and a non-negative dividend, counted as the number
      of steps of b that cover a; `CeilDivIsDivision` ties it to the usual formula. */
  function CeilDiv(a: int, b: int): nat
    requires b > 0
    decreases a
  {
    if a <= 0 then 0 else 1 + CeilDiv(a - b, b)
  }

  lemma MulAtLeast(d: int, b: int)
    requires d >= 1 && b > 0
    ensures d * b >= b
  {
    if d > 1 {
      MulAtLeast(d - 1, b);
      assert d * b == (d - 1) * b + b;
    }
  }

  lemma DivUnique(a: int, b: int, q: int, r: int)
    requires b > 0 && 0 <= r < b && a == q * b + r
    ensures a / b == q
  {
    var q', r' := a / b, a % b;
    assert a == q' * b + r';
    assert (q - q') * b == r' - r by {
      assert q * b - q' * b == (q - q') * b;
    }
    if q' < q {
      MulAtLeast(q - q', b);
    } else if q' > q {
      MulAtLeast(q' - q, b);
    }
  }

  lemma CeilDivZero(b: int)
    requires b > 0
    ensures CeilDiv(0, b) == 0
  {
  }

  lemma CeilDivOne(a: int, b: int)
    requires b > 0 && 0 < a <= b
    ensures CeilDiv(a, b) == 1
  {
    assert CeilDiv(a - b, b) == 0;
  }

  lemma CeilDivStep(a: int, b: int)
    requires b > 0 && a > 0
    ensures CeilDiv(a, b) == 1 + CeilDiv(a - b, b)
  {
  }

  /** For a non-negative dividend the step count is the integer ceiling `(a + b - 1) / b`. */
  lemma {:induction false} CeilDivIsDivision(a: int, b: int)
    requires b > 0 && a >= 0
    ensures CeilDiv(a, b) == (a + b - 1) / b
    decreases a
  {
    if a == 0 {
      DivUnique(b - 1, b, 0, b - 1);
    } else if a <= b {
      assert CeilDiv(a - b, b) == 0;
      DivUnique(a + b - 1, b, 1, a - 1);
    } else {
      CeilDivIsDivision(a - b, b);
      assert (a - b) + b - 1 == a - 1;
      var q, r := (a - 1) / b, (a - 1) % b;
      assert a - 1 == q * b + r;
      assert (q + 1) * b == q * b + b;
      DivUnique(a + b - 1, b, q + 1, r);
    }
  }

  // ---------------------------------------------------------------------------
  // Strings

  /** Python's `str.lower()` restricted to ASCII letters; see README for why this is exact here. */
  function LowerChar(c: char): char {
    if 'A' <= c <= 'Z' then (c as int + 32) as char else c
  }

  function Lower(s: string): (r: string)
    ensures |r| == |s|
  {
    seq(|s|, i requires 0 <= i < |s| => LowerChar(s[i]))
  }

  /** Python's `sep.join(parts)`. */
  function Join(parts: seq<string>, sep: string): string {
    if |parts| == 0 then ""
    else if |parts| == 1 then parts[0]
    else parts[0] + sep + Join(parts[1..], sep)
  }

  lemma {:induction false} JoinSnoc(parts: seq<string>, p: string, sep: string)
    requires |parts| > 0
    ensures Join(parts + [p], sep) == Join(parts, sep) + sep + p
  {
    if |parts| == 1 {
      assert (parts + [p])[1..] == [p];
    } else {
      assert (parts + [p])[1..] == parts[1..] + [p];
      JoinSnoc(parts[1..], p, sep);
    }
  }

  /** The index of the first occurrence of c in s, or |s| when there is none. */
  function IndexOf(s: string, c: char): (i: nat)
    ensures i <= |s|
    ensures i < |s| ==> s[i] == c
    ensures forall k :: 0 <= k < i ==> s[k] != c
  {
    if |s| == 0 then 0
    else if s[0] == c then 0
    else 1 + IndexOf(s[1..], c)
  }

  /** Python's `s.split(c)` for a one-character separator. */
  function SplitOn(s: string, c: char): seq<string>
    decreases |s|
  {
    var i := IndexOf(s, c);
    if i == |s| then [s] else [s[..i]] + SplitOn(s[i + 1..], c)
  }

  /** Splitting a join at a separator no part contains gives the parts back. */
  lemma {:induction false} SplitJoin(parts: seq<string>, c: char)
    requires |parts| > 0
    requires forall k :: 0 <= k < |parts| ==> c !in parts[k]
    ensures SplitOn(Join(parts, [c]), c) == parts
  {
    var p := parts[0];
    if |parts| == 1 {
      assert IndexOf(p, c) == |p|;
    } else {
      var t := Join(parts[1..], [c]);
      var s := p + [c] + t;
      assert Join(parts, [c]) == s;
      assert forall k :: 0 <= k < |p| ==> s[k] == p[k];
      assert s[|p|] == c;
      IndexOfFirst(s, c, |p|);
      assert s[..|p|] == p;
      assert s[|p| + 1..] == t;
      SplitJoin(parts[1..], c);
    }
  }

  lemma IndexOfFirst(s: string, c: char, i: nat)
    requires i < |s| && s[i] == c
    requires forall k :: 0 <= k < i ==> s[k] != c
    ensures IndexOf(s, c) == i
  {
  }

  /** The index of the last occurrence of c in s, or -1 (Python's `str.rfind`). */
  function LastIndexOf(s: string, c: char): (i: int)
    ensures -1 <= i < |s|
    ensures 0 <= i ==> s[i] == c
    ensures forall k :: i < k < |s| ==> s[k] != c
  {
    if |s| == 0 then -1
    else if s[|s| - 1] == c then |s| - 1
    else LastIndexOf(s[..|s| - 1], c)
  }

  // ---------------------------------------------------------------------------
  // Order-preserving filters

  /** The list comprehension `[y for x in xs if f(x) is not None]`, with y the value f yields. */
  function FilterMap<A, B>(xs: seq<A>, f: A -> Option<B>): seq<B> {
    if |xs| == 0 then []
    else
      var rest := FilterMap(xs[..|xs| - 1], f);
      match f(xs[|xs| - 1])
      case None => rest
      case Some(y) => rest + [y]
  }

  /** The positions of xs that FilterMap keeps, in increasing order. */
  function KeptPositions<A, B>(xs: seq<A>, f: A -> Option<B>): seq<nat> {
    if |xs| == 0 then []
    else KeptPositions(xs[..|xs| - 1], f) + (if f(xs[|xs| - 1]).Some? then [|xs| - 1] else [])
  }

  /** FilterMap keeps exactly the positions where f yields a value, in their original order,
      and the j-th result is the value f yields at the j-th kept position. */
  lemma FilterMapPositions<A, B>(xs: seq<A>, f: A -> Option<B>)
    ensures |FilterMap(xs, f)| == |KeptPositions(xs, f)| <= |xs|
    ensures forall j :: 0 <= j < |KeptPositions(xs, f)| ==>
      KeptPositions(xs, f)[j] < |xs| && f(xs[KeptPositions(xs, f)[j]]) == Some(FilterMap(xs, f)[j])
    ensures forall j, k :: 0 <= j < k < |KeptPositions(xs, f)| ==> KeptPositions(xs, f)[j] < KeptPositions(xs, f)[k]
    ensures forall i :: 0 <= i < |xs| ==> (f(xs[i]).Some? <==> i in KeptPositions(xs, f))
  {
    FilterMapAt(xs, f);
    PositionsIncreasing(xs, f);
    PositionsComplete(xs, f);
  }

  lemma {:induction false} FilterMapAt<A, B>(xs: seq<A>, f: A -> Option<B>)
    ensures var ys, ps := FilterMap(xs, f), KeptPositions(xs, f);
      && |ys| == |ps| <= |xs|
      && (forall j :: 0 <= j < |ps| ==> ps[j] < |xs| && f(xs[ps[j]]) == Some(ys[j]))
  {
    if |xs| > 0 {
      var init := xs[..|xs| - 1];
      FilterMapAt(init, f);
      var ys0, ps0 := FilterMap(init, f), KeptPositions(init, f);
      assert forall j :: 0 <= j < |ps0| ==> xs[ps0[j]] == init[ps0[j]];
    }
  }

  lemma {:induction false} PositionsIncreasing<A, B>(xs: seq<A>, f: A -> Option<B>)
    ensures forall j :: 0 <= j < |KeptPositions(xs, f)| ==> KeptPositions(xs, f)[j] < |xs|
    ensures forall j, k :: 0 <= j < k < |KeptPositions(xs, f)| ==> KeptPositions(xs, f)[j] < KeptPositions(xs, f)[k]
  {
    if |xs| > 0 {
      var init := xs[..|xs| - 1];
      PositionsIncreasing(init, f);
    }
  }

  lemma {:induction false} PositionsComplete<A, B>(xs: seq<A>, f: A -> Option<B>)
    ensures var ps := KeptPositions(xs, f);
      forall i :: 0 <= i < |xs| ==> (f(xs[i]).Some? <==> i in ps)
  {
    if |xs| > 0 {
      var init := xs[..|xs| - 1];
      PositionsComplete(init, f);
      PositionsIncreasing(init, f);
      var ps0 := KeptPositions(init, f);
      assert |xs| - 1 !in ps0;
      assert forall i :: 0 <= i < |init| ==> xs[i] == init[i];
    }
  }

  lemma FilterMapSnoc<A, B>(xs: seq<A>, x: A, f: A -> Option<B>)
    ensures FilterMap(xs + [x], f) == FilterMap(xs, f) + (if f(x).Some? then [f(x).value] else [])
  {
    assert (xs + [x])[..|xs|] == xs;
  }
}
