/** Sequence helpers shared by the models: last and first items, filtering, splitting and joining text. */
module Seqs {

  /** The last `n` items of `s`, or all of them when there are fewer. */
  function LastN<T>(s: seq<T>, n: nat): (r: seq<T>)
    ensures |r| == if |s| <= n then |s| else n
  {
    if |s| <= n then s else s[|s| - n..]
  }

  /** The first `n` items of `s`, or all of them when there are fewer. */
  function FirstN<T>(s: seq<T>, n: nat): (r: seq<T>)
    ensures |r| == if |s| <= n then |s| else n
  {
    if |s| <= n then s else s[..n]
  }

  lemma {:induction false} LastNConcat<T>(a: seq<T>, b: seq<T>, n: nat)
    requires |b| <= n
    ensures LastN(a + b, n) == LastN(a, n - |b|) + b
  {
  }

  lemma {:induction false} LastNTail<T>(a: seq<T>, b: seq<T>, n: nat)
    requires n <= |b|
    ensures LastN(a + b, n) == LastN(b, n)
  {
    var ab := a + b;
    assert ab[|ab| - n..] == b[|b| - n..];
  }

  /** Extending a suffix of `a` by the end of `b` gives a suffix of `a + b`, if nothing of `b` is left out in between.
      */
  lemma {:induction false} LastNStep<T>(a: seq<T>, b: seq<T>, n: nat, rest: seq<T>)
    requires rest == LastN(a, |rest|) && |rest| + |LastN(b, n)| <= n
    ensures rest + LastN(b, n) == LastN(a + b, |rest| + |LastN(b, n)|)
  {
    if |b| <= n {
      LastNConcat(a, b, |rest| + |b|);
    } else {
      assert rest + LastN(b, n) == LastN(b, n);
      LastNTail(a, b, n);
    }
  }

  /** The same for prefixes. */
  lemma {:induction false} FirstNStep<T>(a: seq<T>, b: seq<T>, n: nat, rest: seq<T>)
    requires rest == FirstN(b, |rest|) && |rest| + |FirstN(a, n)| <= n
    ensures FirstN(a, n) + rest == FirstN(a + b, |FirstN(a, n)| + |rest|)
  {
    if |a| <= n {
      FirstNConcat(a, b, |a| + |rest|);
    } else {
      assert FirstN(a, n) + rest == FirstN(a, n);
      FirstNHead(a, b, n);
    }
  }

  lemma {:induction false} FirstNConcat<T>(a: seq<T>, b: seq<T>, n: nat)
    requires |a| <= n
    ensures FirstN(a + b, n) == a + FirstN(b, n - |a|)
  {
  }

  lemma {:induction false} FirstNHead<T>(a: seq<T>, b: seq<T>, n: nat)
    requires n <= |a|
    ensures FirstN(a + b, n) == FirstN(a, n)
  {
    assert (a + b)[..n] == a[..n];
  }

  function Filter<T>(s: seq<T>, p: T -> bool): (r: seq<T>)
    ensures |r| <= |s|
    ensures forall i :: 0 <= i < |r| ==> p(r[i]) && r[i] in s
  {
    if s == [] then [] else (if p(s[0]) then [s[0]] else []) + Filter(s[1..], p)
  }

  lemma {:induction false} FilterConcat<T>(a: seq<T>, b: seq<T>, p: T -> bool)
    ensures Filter(a + b, p) == Filter(a, p) + Filter(b, p)
  {
    if a == [] {
      assert a + b == b;
    } else {
      assert (a + b)[1..] == a[1..] + b;
      FilterConcat(a[1..], b, p);
    }
  }

  lemma {:induction false} FilterCons<T>(x: T, s: seq<T>, p: T -> bool)
    ensures Filter([x] + s, p) == if p(x) then [x] + Filter(s, p) else Filter(s, p)
  {
    assert ([x] + s)[1..] == s;
  }

  lemma {:induction false} FilterAll<T>(s: seq<T>, p: T -> bool)
    requires forall i :: 0 <= i < |s| ==> p(s[i])
    ensures Filter(s, p) == s
  {
    if s != [] {
      FilterAll(s[1..], p);
    }
  }

  lemma {:induction false} FilterNone<T>(s: seq<T>, p: T -> bool)
    requires forall i :: 0 <= i < |s| ==> !p(s[i])
    ensures Filter(s, p) == []
  {
    if s != [] {
      FilterNone(s[1..], p);
    }
  }

  /** Filtering keeps the first `n` items exactly when none of them is filtered out. */
  lemma {:induction false} FilterKeepsFirst<T>(s: seq<T>, p: T -> bool, n: nat)
    ensures FirstN(Filter(s, p), n) == FirstN(s, n) <==> forall i :: 0 <= i < |s| && i < n ==> p(s[i])
  {
    var f := Filter(s, p);
    if FirstN(f, n) == FirstN(s, n) {
      forall i | 0 <= i < |s| && i < n ensures p(s[i]) {
        assert s[i] == FirstN(s, n)[i] == FirstN(f, n)[i] == f[i];
      }
    }
    if forall i :: 0 <= i < |s| && i < n ==> p(s[i]) {
      FilterKeepsPrefix(s, p, n);
    }
  }

  lemma {:induction false} FilterKeepsPrefix<T>(s: seq<T>, p: T -> bool, n: nat)
    requires forall i :: 0 <= i < |s| && i < n ==> p(s[i])
    ensures FirstN(Filter(s, p), n) == FirstN(s, n)
  {
    if |s| <= n {
      FilterAll(s, p);
    } else {
      var a, b := s[..n], s[n..];
      assert s == a + b;
      FilterConcat(a, b, p);
      FilterAll(a, p);
      FirstNHead(a, Filter(b, p), n);
    }
  }

  /** The parts one after the other. */
  function Concat<T>(parts: seq<seq<T>>): seq<T> {
    if parts == [] then [] else Concat(parts[..|parts| - 1]) + parts[|parts| - 1]
  }

  function SetOf<T>(s: seq<T>): set<T> {
    set x | x in s
  }

  lemma {:induction false} SetOfAppend<T>(s: seq<T>, x: T)
    ensures SetOf(s + [x]) == SetOf(s) + {x}
  {
  }

  /** No two positions hold the same item. */
  predicate Distinct<T(==)>(s: seq<T>) {
    forall i, j :: 0 <= i < j < |s| ==> s[i] != s[j]
  }

  /** Numbers closer together than `n` have different remainders modulo `n`. */
  lemma {:induction false} ModDistinct(a: int, b: int, n: int)
    requires 0 < n && a < b < a + n
    ensures a % n != b % n
  {
    var q := b / n - a / n;
    assert b - a == n * q + (b % n - a % n);
    assert q <= 0 ==> n * q <= 0;
    assert q > 0 ==> n * q >= n;
  }
}
