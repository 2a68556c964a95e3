/** Fixed-size rings indexed by a running counter modulo their size. */
module Ring {
  import opened Seqs

  function Slot(k: nat, base: nat, size: nat): nat
    requires size > 0
  {
    (k + base) % size
  }

  /** Slot `(k + base) % size` holds item number `k`, for the newest `size` items. */
  predicate Holds<T(==)>(buf: seq<T>, items: seq<T>, base: nat)
    requires |buf| > 0
  {
    forall k :: 0 <= k < |items| && |items| - |buf| <= k ==> buf[Slot(k, base, |buf|)] == items[k]
  }

  /** Writing the next item at the counter modulo the size keeps the newest `size` items. */
  lemma {:induction false} Put<T>(buf: seq<T>, items: seq<T>, base: nat, x: T)
    requires |buf| > 0 && Holds(buf, items, base)
    ensures Holds(buf[(|items| + base) % |buf| := x], items + [x], base)
  {
    var cur := |items| + base;
    forall k | 0 <= k < |items| && |items| + 1 - |buf| <= k
      ensures Slot(k, base, |buf|) != cur % |buf|
    {
      ModDistinct(k + base, cur, |buf|);
    }
  }

  lemma {:induction false} ModIs(a: int, q: int, r: int, n: int)
    requires 0 <= r < n && a == q * n + r
    ensures a % n == r
  {
    var k := a / n - q;
    assert k * n == a / n * n - q * n == r - a % n;
    MulAtLeast(k, n);
  }

  lemma {:induction false} MulAtLeast(k: int, n: int)
    requires n > 0
    ensures k > 0 ==> k * n >= n
    ensures k < 0 ==> k * n <= -n
  {
  }

  lemma {:induction false} ModAfterWrap(cur: nat, j: nat, n: nat)
    requires j < n <= cur
    ensures var start := cur % n;
            (cur - n + j) % n == if start + j < n then start + j else start + j - n
  {
    var q, start := cur / n, cur % n;
    assert cur == q * n + start;
    if start + j < n {
      ModIs(cur - n + j, q - 1, start + j, n);
    } else {
      ModIs(cur - n + j, q, start + j - n, n);
    }
  }

  /** The newest items of a ring (base 0) into which `cur` items have been written, oldest first. */
  function Items<T>(buf: seq<T>, cur: nat): seq<T>
    requires |buf| > 0
  {
    var n := if cur < |buf| then cur else |buf|;
    var start := (cur - n + |buf|) % |buf|;
    if start + n <= |buf| then buf[start..start + n]  // the ring does not wrap
    else
      var copied := |buf| - start;
      buf[start..] + buf[..n - copied]
  }

  /** Reading a full or partly filled ring from its oldest slot gives the newest items in order. */
  lemma {:induction false} ItemsAreNewest<T>(buf: seq<T>, items: seq<T>)
    requires |buf| > 0 && Holds(buf, items, 0)
    ensures Items(buf, |items|) == LastN(items, |buf|)
  {
    var cur, limit := |items|, |buf|;
    if cur < limit {
      ModIs(limit, 1, 0, limit);
      forall k | 0 <= k < cur ensures buf[k] == items[k] {
        ModIs(k, 0, k, limit);
        assert buf[Slot(k, 0, limit)] == items[k];
      }
    } else {
      var start := cur % limit;
      assert (cur - limit + limit) % limit == start;
      var out := Items(buf, cur);
      assert |out| == limit;
      forall j | 0 <= j < limit ensures out[j] == LastN(items, limit)[j] {
        ModAfterWrap(cur, j, limit);
        assert buf[Slot(cur - limit + j, 0, limit)] == items[cur - limit + j];
      }
    }
  }
}
