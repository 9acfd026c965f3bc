/** The few Python built-ins the plugin relies on: exceptions as a result type,
    slicing with Python's bounds rules, `str` of a non-negative integer,
    `str.zfill`, `int()` of a year label, extended slicing `s[::k]`,
    and `str.replace(old, "")`. */
module Python {

  /** The exceptions the plugin's data code can raise. */
  datatype Error = IndexError | ZeroDivisionError | ValueError

  datatype Option<+T> = None | Some(value: T)

  /** A value, or the exception that interrupted its computation. */
  datatype Result<+T> = Success(value: T) | Failure(error: Error) {
    predicate IsFailure() { Failure? }
    function PropagateFailure<U>(): Result<U> requires Failure? { Failure(error) }
    function Extract(): T requires Success? { value }
  }

  function Min(a: int, b: int): int { if a <= b then a else b }

  /** Python's rule for one bound of `s[a:b]` on a sequence of length `n`:
      a negative bound counts from the end, then the bound is clamped to `[0, n]`. */
  function ClampIndex(n: nat, i: int): (k: nat)
    ensures k <= n
    ensures 0 <= i <= n ==> k == i
    ensures i > n ==> k == n
    ensures i < 0 && i + n >= 0 ==> k == i + n
    ensures i + n < 0 ==> k == 0
  {
    if i < 0 then (if i + n < 0 then 0 else i + n) else if i > n then n else i
  }

  /** `s[a:b]` (step 1): both bounds clamped, empty when the upper one does not exceed the lower one. */
  function Slice<T>(s: seq<T>, a: int, b: int): (r: seq<T>)
    ensures |r| <= |s|
    ensures 0 <= a <= b <= |s| ==> r == s[a..b]
    ensures ClampIndex(|s|, a) <= ClampIndex(|s|, b) ==> r == s[ClampIndex(|s|, a)..ClampIndex(|s|, b)]
    ensures ClampIndex(|s|, b) <= ClampIndex(|s|, a) ==> r == []
  {
    var lo := ClampIndex(|s|, a);
    var hi := ClampIndex(|s|, b);
    if hi <= lo then [] else s[lo..hi]
  }

  /** `s[a:]`. */
  function From<T>(s: seq<T>, a: int): (r: seq<T>)
    ensures 0 <= a <= |s| ==> r == s[a..]
    ensures a >= |s| ==> r == []
  {
    Slice(s, a, |s|)
  }

  function DigitChar(d: nat): (c: char)
    requires d < 10
  {
    (('0' as int) + d) as char
  }

  predicate IsDigit(c: char) { '0' <= c <= '9' }

  function DigitValue(c: char): (d: nat)
    requires IsDigit(c)
    ensures d < 10 && DigitChar(d) == c
  {
    (c as int) - ('0' as int)
  }

  /** `str(n)` for a non-negative integer: its decimal digits, no leading zero. */
  function Str(n: nat): (s: string)
    ensures |s| >= 1
    ensures forall c <- s :: IsDigit(c)
    ensures n < 10 <==> |s| == 1
    decreases n
  {
    if n < 10 then [DigitChar(n)] else Str(n / 10) + [DigitChar(n % 10)]
  }

  /** Value of a string of decimal digits. */
  function DigitsValue(s: string): (v: nat)
    requires forall c <- s :: IsDigit(c)
  {
    if s == [] then 0 else 10 * DigitsValue(s[..|s| - 1]) + DigitValue(s[|s| - 1])
  }

  /** `int(s)` for a year label. Accepted: a non-empty run of ASCII digits; anything else is a `ValueError`. */
  function ParseInt(s: string): (r: Result<int>)
    ensures r.Success? <==> (|s| > 0 && forall c <- s :: IsDigit(c))
    ensures r.Success? ==> r.value >= 0
  {
    if |s| > 0 && forall c <- s :: IsDigit(c) then Success(DigitsValue(s)) else Failure(ValueError)
  }

  /** `int(str(n)) == n`: the decimal rendering of a year reads back as that year. */
  lemma {:induction false} ParseStr(n: nat)
    ensures ParseInt(Str(n)) == Success(n)
  {
    StrValue(n);
  }

  lemma {:induction false} StrValue(n: nat)
    ensures DigitsValue(Str(n)) == n
    decreases n
  {
    if n >= 10 {
      StrValue(n / 10);
      var s := Str(n);
      assert s[..|s| - 1] == Str(n / 10);
      assert DigitValue(s[|s| - 1]) == n % 10;
    }
  }

  /** Distinct non-negative integers have distinct decimal renderings. */
  lemma StrInjective(m: nat, n: nat)
    requires Str(m) == Str(n)
    ensures m == n
  {
    ParseStr(m);
    ParseStr(n);
  }

  function Zeros(k: nat): (s: string)
    ensures |s| == k && forall c <- s :: c == '0'
  {
    if k == 0 then [] else ['0'] + Zeros(k - 1)
  }

  /** `s.zfill(w)` for an unsigned digit string: pad on the left with '0' up to width `w`. */
  function ZFill(s: string, w: nat): (r: string)
    ensures |r| == if |s| >= w then |s| else w
    ensures r[|r| - |s|..] == s
  {
    if |s| >= w then s else Zeros(w - |s|) + s
  }

  /** `str(n).zfill(2)` of a number below 100 is its tens digit followed by its units digit. */
  lemma TwoDigits(n: nat)
    requires n < 100
    ensures ZFill(Str(n), 2) == [DigitChar(n / 10), DigitChar(n % 10)]
  {
    if n >= 10 {
      assert Str(n / 10) == [DigitChar(n / 10)];
    }
  }

  /** Extended slicing `s[::k]`: every `k`-th element, starting with the first. */
  function EveryNth<T>(s: seq<T>, k: nat): (r: seq<T>)
    requires k > 0
    ensures |s| > 0 ==> |r| > 0 && r[0] == s[0]
    decreases |s|
  {
    if |s| == 0 then [] else [s[0]] + EveryNth(s[Min(k, |s|)..], k)
  }

  /** `s[::k]` has `ceil(|s| / k)` elements: the fewest `m` with `m * k >= |s|`. */
  lemma {:induction false} EveryNthLength<T>(s: seq<T>, k: nat)
    requires k > 0
    ensures |EveryNth(s, k)| * k >= |s|
    ensures |s| > 0 ==> (|EveryNth(s, k)| - 1) * k < |s|
    decreases |s|
  {
    if |s| > 0 {
      var t := s[Min(k, |s|)..];
      EveryNthLength(t, k);
      var m := |EveryNth(t, k)|;
      assert |EveryNth(s, k)| == m + 1;
      assert (m + 1) * k == m * k + k;
      if |s| <= k {
        assert t == [];
      } else {
        assert |t| == |s| - k;
        assert m > 0;
        assert m * k == (m - 1) * k + k;
      }
    }
  }

  /** The `j`-th element of `s[::k]` is `s[j * k]`. */
  lemma {:induction false} EveryNthAt<T>(s: seq<T>, k: nat, j: nat)
    requires k > 0
    requires j < |EveryNth(s, k)|
    ensures j * k < |s| && EveryNth(s, k)[j] == s[j * k]
    decreases j
  {
    if j > 0 {
      var t := s[Min(k, |s|)..];
      EveryNthAt(t, k, j - 1);
      assert (j - 1) * k + k == j * k;
    }
  }

  /** `s.replace(old, "")`: remove every occurrence of `pat`, scanning left to right. */
  function RemoveAll(s: string, pat: string): (r: string)
    requires |pat| > 0
    ensures |r| <= |s|
    decreases |s|
  {
    if |s| < |pat| then s
    else if s[..|pat|] == pat then RemoveAll(s[|pat|..], pat)
    else [s[0]] + RemoveAll(s[1..], pat)
  }

  predicate OccursAt(s: string, pat: string, i: nat)
    requires i + |pat| <= |s|
  {
    s[i..i + |pat|] == pat
  }

  /** Scanning from the left, an occurrence of `pat` after a prefix `p` in which the first character of
      `pat` does not appear is removed: `p` is kept as it is and the scan resumes right after `pat`. */
  lemma {:induction false} RemoveAllSkip(p: string, pat: string, q: string)
    requires |pat| > 0 && pat[0] !in p
    ensures RemoveAll(p + pat + q, pat) == p + RemoveAll(q, pat)
    decreases |p|
  {
    var s := p + pat + q;
    if p == [] {
      assert s == pat + q;
      RemoveAllDrop(s, pat);
      assert s[|pat|..] == q;
    } else {
      assert s[0] == p[0];
      RemoveAllKeep(s, pat);
      assert s[1..] == p[1..] + pat + q;
      RemoveAllSkip(p[1..], pat, q);
      ConcatAssoc([p[0]], p[1..], RemoveAll(q, pat));
      assert [p[0]] + p[1..] == p;
    }
  }

  /** A string holding `pat` at `k`, with the first character of `pat` nowhere else, loses exactly that
      occurrence. */
  lemma RemoveAllOnce(s: string, pat: string, k: nat)
    requires |pat| > 0 && k + |pat| <= |s| && OccursAt(s, pat, k)
    requires pat[0] !in s[..k] && pat[0] !in s[k + |pat|..]
    ensures RemoveAll(s, pat) == s[..k] + s[k + |pat|..]
  {
    assert s == s[..k] + pat + s[k + |pat|..];
    RemoveAllSkip(s[..k], pat, s[k + |pat|..]);
    RemoveAllNone(s[k + |pat|..], pat);
  }

  lemma ConcatAssoc<T>(a: seq<T>, b: seq<T>, c: seq<T>)
    ensures a + (b + c) == (a + b) + c
  {
  }

  /** A string that starts with `pat` loses it. */
  lemma RemoveAllDrop(s: string, pat: string)
    requires 0 < |pat| <= |s| && s[..|pat|] == pat
    ensures RemoveAll(s, pat) == RemoveAll(s[|pat|..], pat)
  {
  }

  /** A string that does not start with the first character of `pat` keeps its first character. */
  lemma RemoveAllKeep(s: string, pat: string)
    requires 0 < |pat| <= |s| && s[0] != pat[0]
    ensures RemoveAll(s, pat) == [s[0]] + RemoveAll(s[1..], pat)
  {
    assert s[..|pat|][0] != pat[0];
  }

  /** A string in which the first character of `pat` does not occur is left untouched. */
  lemma {:induction false} RemoveAllNone(s: string, pat: string)
    requires |pat| > 0 && pat[0] !in s
    ensures RemoveAll(s, pat) == s
    decreases |s|
  {
    if |s| >= |pat| {
      RemoveAllKeep(s, pat);
      RemoveAllNone(s[1..], pat);
    }
  }

  /** `s.replace(old, "")` leaves a string without `pat` untouched. */
  lemma {:induction false} RemoveAllAbsent(s: string, pat: string)
    requires |pat| > 0
    requires forall i: nat :: i + |pat| <= |s| ==> !OccursAt(s, pat, i)
    ensures RemoveAll(s, pat) == s
    decreases |s|
  {
    if |s| >= |pat| {
      assert !OccursAt(s, pat, 0);
      assert s[..|pat|] == s[0..0 + |pat|];
      forall i: nat | i + |pat| <= |s[1..]|
        ensures !OccursAt(s[1..], pat, i)
      {
        assert !OccursAt(s, pat, i + 1);
        assert s[1..][i..i + |pat|] == s[i + 1..i + 1 + |pat|];
      }
      RemoveAllAbsent(s[1..], pat);
    }
  }

  /** `[f(i, x) for i, x in enumerate(xs)]`: the list of results in order, or the exception of the first
      element whose computation raises. */
  function MapEnumerate<X, T>(f: (nat, X) -> Result<T>, xs: seq<X>): (r: Result<seq<T>>)
    ensures r.Success? ==> |r.value| == |xs|
    decreases |xs|
  {
    if xs == [] then Success([])
    else
      var n := |xs| - 1;
      var init :- MapEnumerate(f, xs[..n]);
      var last :- f(n, xs[n]);
      Success(init + [last])
  }

  /** The comprehension completes exactly when no element raises, its `i`-th entry is `f(i, xs[i])`, and
      when it raises, the exception is that of some element. */
  lemma {:induction false} MapEnumerateAt<X, T>(f: (nat, X) -> Result<T>, xs: seq<X>)
    ensures MapEnumerate(f, xs).Success? <==> forall i :: 0 <= i < |xs| ==> f(i, xs[i]).Success?
    ensures MapEnumerate(f, xs).Success? ==>
      forall i :: 0 <= i < |xs| ==> MapEnumerate(f, xs).value[i] == f(i, xs[i]).value
    ensures MapEnumerate(f, xs).Failure? ==>
      exists i :: 0 <= i < |xs| && f(i, xs[i]) == Failure(MapEnumerate(f, xs).error)
    decreases |xs|
  {
    if xs != [] {
      var n := |xs| - 1;
      var prefix := xs[..n];
      MapEnumerateAt(f, prefix);
      var init := MapEnumerate(f, prefix);
      var last := f(n, xs[n]);
      if init.Failure? {
        var i :| 0 <= i < n && f(i, prefix[i]) == Failure(init.error);
        assert prefix[i] == xs[i];
        assert !f(i, xs[i]).Success?;
      } else if last.Failure? {
        assert f(n, xs[n]) == Failure(MapEnumerate(f, xs).error);
      } else {
        forall i | 0 <= i < n
          ensures f(i, xs[i]) == f(i, prefix[i])
        {
          assert prefix[i] == xs[i];
        }
      }
    }
  }

  /** One more step of the comprehension: the next element's result is appended, or its exception ends it. */
  lemma MapEnumerateSnoc<X, T>(f: (nat, X) -> Result<T>, xs: seq<X>, i: nat, done: seq<T>)
    requires i < |xs| && MapEnumerate(f, xs[..i]) == Success(done)
    ensures MapEnumerate(f, xs[..i + 1]) ==
      if f(i, xs[i]).Success? then Success(done + [f(i, xs[i]).value]) else Failure(f(i, xs[i]).error)
  {
    assert xs[..i + 1][..i] == xs[..i];
  }

  /** Once an element raises, the whole comprehension raises that exception. */
  lemma {:induction false} MapEnumeratePrefixFailure<X, T>(f: (nat, X) -> Result<T>, xs: seq<X>, i: nat)
    requires i <= |xs| && MapEnumerate(f, xs[..i]).Failure?
    ensures MapEnumerate(f, xs) == MapEnumerate(f, xs[..i])
    decreases |xs| - i
  {
    if i < |xs| {
      assert xs[..i + 1][..i] == xs[..i];
      MapEnumeratePrefixFailure(f, xs, i + 1);
    } else {
      assert xs[..i] == xs;
    }
  }

  /** `[f(vs[0], i, y) for i, y in enumerate(ys)] + [f(vs[1], i, y) for i, y in enumerate(ys)] + ...`:
      one block of results per element of `vs`. */
  function MapBlocks<X, Y, T>(f: (X, nat, Y) -> Result<T>, vs: seq<X>, ys: seq<Y>): (r: Result<seq<T>>)
    decreases |vs|
  {
    if vs == [] then Success([])
    else
      var head :- MapEnumerate((i: nat, y: Y) => f(vs[0], i, y), ys);
      var tail :- MapBlocks(f, vs[1..], ys);
      Success(head + tail)
  }

  /** Where block `k` starts when every block holds `n` entries: `k * n`, written as a sum. */
  function BlockStart(k: nat, n: nat): (p: nat)
    ensures k > 0 ==> p >= n
  {
    if k == 0 then 0 else BlockStart(k - 1, n) + n
  }

  /** The first few block starts. */
  lemma BlockStarts(n: nat)
    ensures BlockStart(1, n) == n && BlockStart(2, n) == n + n && BlockStart(3, n) == n + n + n
  {
    assert BlockStart(1, n) == BlockStart(0, n) + n;
    assert BlockStart(2, n) == BlockStart(1, n) + n;
    assert BlockStart(3, n) == BlockStart(2, n) + n;
  }

  /** The blocks complete exactly when no call raises, and an exception is that of some call. */
  lemma {:induction false} MapBlocksSucceed<X, Y, T>(f: (X, nat, Y) -> Result<T>, vs: seq<X>, ys: seq<Y>)
    ensures MapBlocks(f, vs, ys).Success? <==>
      forall k, i :: 0 <= k < |vs| && 0 <= i < |ys| ==> f(vs[k], i, ys[i]).Success?
    ensures MapBlocks(f, vs, ys).Failure? ==>
      exists k, i :: 0 <= k < |vs| && 0 <= i < |ys| && f(vs[k], i, ys[i]) == Failure(MapBlocks(f, vs, ys).error)
    decreases |vs|
  {
    if vs != [] {
      var g := (i: nat, y: Y) => f(vs[0], i, y);
      MapEnumerateAt(g, ys);
      MapBlocksSucceed(f, vs[1..], ys);
      var head := MapEnumerate(g, ys);
      var tail := MapBlocks(f, vs[1..], ys);
      if head.Failure? {
        var i :| 0 <= i < |ys| && g(i, ys[i]) == Failure(head.error);
        assert f(vs[0], i, ys[i]) == Failure(head.error);
      } else if tail.Failure? {
        var k, i :| 0 <= k < |vs| - 1 && 0 <= i < |ys| && f(vs[1..][k], i, ys[i]) == Failure(tail.error);
        assert f(vs[k + 1], i, ys[i]) == Failure(tail.error);
      } else {
        forall k, i | 0 <= k < |vs| && 0 <= i < |ys|
          ensures f(vs[k], i, ys[i]).Success?
        {
          if k > 0 {
            assert vs[k] == vs[1..][k - 1];
          } else {
            assert g(i, ys[i]) == f(vs[0], i, ys[i]);
          }
        }
      }
    }
  }

  /** A completed result has `|vs|` blocks of `|ys|` entries. */
  lemma {:induction false} MapBlocksLength<X, Y, T>(f: (X, nat, Y) -> Result<T>, vs: seq<X>, ys: seq<Y>)
    requires MapBlocks(f, vs, ys).Success?
    ensures |MapBlocks(f, vs, ys).value| == BlockStart(|vs|, |ys|)
    decreases |vs|
  {
    if vs != [] {
      MapBlocksLength(f, vs[1..], ys);
    }
  }

  /** Entry `i` of block `k` of a completed result is `f(vs[k], i, ys[i])`. */
  lemma {:induction false} MapBlocksEntry<X, Y, T>(f: (X, nat, Y) -> Result<T>, vs: seq<X>, ys: seq<Y>, k: nat, i: nat)
    requires MapBlocks(f, vs, ys).Success? && k < |vs| && i < |ys|
    ensures BlockStart(k, |ys|) + i < |MapBlocks(f, vs, ys).value|
    ensures f(vs[k], i, ys[i]) == Success(MapBlocks(f, vs, ys).value[BlockStart(k, |ys|) + i])
    decreases k
  {
    var g := (i: nat, y: Y) => f(vs[0], i, y);
    MapEnumerateAt(g, ys);
    var head := MapEnumerate(g, ys).value;
    var tail := MapBlocks(f, vs[1..], ys).value;
    assert MapBlocks(f, vs, ys).value == head + tail;
    if k > 0 {
      MapBlocksEntry(f, vs[1..], ys, k - 1, i);
      assert vs[k] == vs[1..][k - 1];
    } else {
      assert g(i, ys[i]) == f(vs[0], i, ys[i]);
    }
  }

  // ---------------------------------------------------------------------------
  // `range`, `zip` and flattening a zip

  /** `range(start, stop, step)` for a positive step and non-negative bounds. */
  function Range(start: nat, stop: nat, step: nat): (r: seq<nat>)
    requires step > 0
    ensures start < stop ==> |r| > 0 && r[0] == start
    ensures start >= stop ==> r == []
    decreases stop - start
  {
    if start >= stop then [] else [start] + Range(start + step, stop, step)
  }

  /** Every element of a range is `step` past the one before it, the first is `start`, and all lie below `stop`. */
  lemma {:induction false} RangeAt(start: nat, stop: nat, step: nat, k: nat)
    requires step > 0 && k < |Range(start, stop, step)|
    ensures start <= Range(start, stop, step)[k] < stop
    ensures k > 0 ==> Range(start, stop, step)[k] == Range(start, stop, step)[k - 1] + step
    decreases stop - start
  {
    if k > 0 {
      RangeAt(start + step, stop, step, k - 1);
    }
  }

  /** `zip(a, b)`: pairs up to the shorter length. */
  function Zip<X, Y>(a: seq<X>, b: seq<Y>): (r: seq<(X, Y)>)
    ensures |r| == Min(|a|, |b|)
    ensures forall k :: 0 <= k < |r| ==> r[k] == (a[k], b[k])
  {
    seq(Min(|a|, |b|), k requires 0 <= k < Min(|a|, |b|) => (a[k], b[k]))
  }

  /** `[item for t in zip(a, b) for item in t]`. */
  function Interleave<X>(a: seq<X>, b: seq<X>): (r: seq<X>)
    decreases |a|
  {
    if |a| == 0 || |b| == 0 then [] else [a[0], b[0]] + Interleave(a[1..], b[1..])
  }

  /** The flattened zip alternates `a` and `b`, stopping with the shorter list: two entries per pair. */
  lemma {:induction false} InterleaveAt<X>(a: seq<X>, b: seq<X>)
    ensures |Interleave(a, b)| == Min(|a|, |b|) + Min(|a|, |b|)
    ensures forall k :: 0 <= k < Min(|a|, |b|) ==>
      Interleave(a, b)[k + k] == a[k] && Interleave(a, b)[k + k + 1] == b[k]
    decreases |a|
  {
    if |a| > 0 && |b| > 0 {
      InterleaveAt(a[1..], b[1..]);
      var r := Interleave(a, b);
      forall k | 0 <= k < Min(|a|, |b|)
        ensures r[k + k] == a[k] && r[k + k + 1] == b[k]
      {
        if k > 0 {
          assert r[k + k] == Interleave(a[1..], b[1..])[(k - 1) + (k - 1)];
          assert r[k + k + 1] == Interleave(a[1..], b[1..])[(k - 1) + (k - 1) + 1];
        }
      }
    }
  }
}
