/** Walking day by day through a log, newest or oldest first, giving up after 100 days without a match.
    The simple thing the walk stands for is one flat list: the days' matches one after the other. */
module DayWalk {
  import opened Seqs
  import opened Text

  const MAX_TRIES: int := 100

  /** The matches each day holds, or `None` for a day whose file cannot be parsed. */
  type Days<!T> = int -> Option<seq<T>>

  ghost predicate Readable<T>(days: Days<T>, lo: int, hi: int) {
    forall d :: lo <= d <= hi ==> days(d).Some?
  }

  /** All matches of the days `lo` to `hi`, in order. */
  ghost function Flat<T>(days: Days<T>, lo: int, hi: int): seq<T>
    requires Readable(days, lo, hi)
    decreases hi - lo
  {
    if hi < lo then [] else Flat(days, lo, hi - 1) + days(hi).value
  }

  /** The loop of `getBeforeTime` and `LoadLatestID`: fill up to `remaining` items from `day` backwards. */
  ghost function WalkBack<T>(days: Days<T>, day: int, lo: int, remaining: nat, tries: nat): Option<seq<T>>
    decreases day - lo
  {
    if remaining == 0 || tries >= MAX_TRIES || day < lo then Some([])
    else if days(day).None? then None
    else
      var buf := LastN(days(day).value, remaining);
      var rest := WalkBack(days, day - 1, lo, remaining - |buf|, if buf == [] then tries + 1 else 0);
      if rest.None? then None else Some(rest.value + buf)
  }

  /** The loop of `getAfterTime`: fill up to `remaining` items from `day` forwards. */
  ghost function WalkForward<T>(days: Days<T>, day: int, hi: int, remaining: nat, tries: nat): Option<seq<T>>
    decreases hi - day
  {
    if remaining == 0 || tries >= MAX_TRIES || hi < day then Some([])
    else if days(day).None? then None
    else
      var buf := FirstN(days(day).value, remaining);
      var rest := WalkForward(days, day + 1, hi, remaining - |buf|, if buf == [] then tries + 1 else 0);
      if rest.None? then None else Some(buf + rest.value)
  }

  /** The same walk, carrying what has been collected so far. */
  ghost function CollectBack<T>(days: Days<T>, day: int, lo: int, remaining: nat, tries: nat,
          collected: seq<T>): Option<seq<T>>
    decreases day - lo
  {
    if remaining == 0 || tries >= MAX_TRIES || day < lo then Some(collected)
    else if days(day).None? then None
    else
      var buf := LastN(days(day).value, remaining);
      CollectBack(days, day - 1, lo, remaining - |buf|, if |buf| == 0 then tries + 1 else 0, buf + collected)
  }

  lemma {:induction false} CollectBackIsWalk<T>(days: Days<T>, day: int, lo: int, remaining: nat, tries: nat,
          collected: seq<T>)
    ensures var r := WalkBack(days, day, lo, remaining, tries);
            CollectBack(days, day, lo, remaining, tries, collected) == if r.None? then None
                else Some(r.value + collected)
    ensures collected == [] ==> CollectBack(days, day, lo, remaining, tries, collected) == WalkBack(days, day, lo,
        remaining, tries)
    decreases day - lo
  {
    if remaining == 0 || tries >= MAX_TRIES || day < lo {
      assert [] + collected == collected;
    } else if days(day).Some? {
      var buf := LastN(days(day).value, remaining);
      var tries' := if |buf| == 0 then tries + 1 else 0;
      CollectBackIsWalk(days, day - 1, lo, remaining - |buf|, tries', buf + collected);
      var rest := WalkBack(days, day - 1, lo, remaining - |buf|, tries');
      if rest.Some? {
        assert rest.value + (buf + collected) == rest.value + buf + collected;
      }
    }
    var r := WalkBack(days, day, lo, remaining, tries);
    assert r.Some? ==> r.value + [] == r.value;
  }

  /** What reading one day forwards gives when at most so many items are wanted. */
  type Shares<!T> = (int, nat) -> Option<seq<T>>

  /** The loop of `getAfterTime` as it runs: each day is read only as far as needed. */
  ghost function CollectForward<T>(share: Shares<T>, day: int, hi: int, remaining: nat, tries: nat,
          collected: seq<T>): Option<seq<T>>
    decreases hi - day
  {
    if remaining == 0 || tries >= MAX_TRIES || hi < day then Some(collected)
    else
      var buf := share(day, remaining);
      if buf.None? || |buf.value| > remaining then None
      else CollectForward(share, day + 1, hi, remaining - |buf.value|, if |buf.value| == 0 then tries + 1 else 0,
          collected + buf.value)
  }

  lemma {:induction false} CollectForwardStep<T>(share: Shares<T>, day: int, hi: int, remaining: nat, tries: nat,
          collected: seq<T>, buf: seq<T>)
    requires 0 < remaining && tries < MAX_TRIES && day <= hi && share(day, remaining) == Some(buf) && |buf| <= remaining
    ensures CollectForward(share, day, hi, remaining, tries, collected)
         == CollectForward(share, day + 1, hi, remaining - |buf|, if |buf| == 0 then tries + 1 else 0, collected + buf)
  {
  }

  /** Reading days only as far as needed changes nothing. */
  lemma {:induction false} CollectForwardIsWalk<T>(share: Shares<T>, days: Days<T>, day: int, hi: int, remaining: nat,
          tries: nat, collected: seq<T>)
    requires Readable(days, day, hi)
    requires forall d, n {:trigger share(d, n)} :: day <= d <= hi ==> share(d, n) == Some(FirstN(days(d).value, n))
    ensures var r := WalkForward(days, day, hi, remaining, tries);
            r.Some? && CollectForward(share, day, hi, remaining, tries, collected) == Some(collected + r.value)
    decreases hi - day
  {
    if remaining == 0 || tries >= MAX_TRIES || hi < day {
      assert collected + [] == collected;
    } else {
      var buf := FirstN(days(day).value, remaining);
      var tries' := if |buf| == 0 then tries + 1 else 0;
      CollectForwardStep(share, day, hi, remaining, tries, collected, buf);
      CollectForwardIsWalk(share, days, day + 1, hi, remaining - |buf|, tries', collected + buf);
      var rest := WalkForward(days, day + 1, hi, remaining - |buf|, tries').value;
      assert WalkForward(days, day, hi, remaining, tries) == Some(buf + rest);
      assert collected + buf + rest == collected + (buf + rest);
    }
  }

  /** `count` days from `first` on without a match. */
  ghost predicate EmptyRun<T>(days: Days<T>, first: int, count: int) {
    forall d :: first <= d < first + count ==> days(d) == Some([])
  }

  /** Walking back from `hi` meets 100 empty days, starting at `first`, while items are still
      missing, and there are matches beyond them. */
  ghost predicate GapBack<T>(days: Days<T>, lo: int, hi: int, limit: nat)
    requires Readable(days, lo, hi)
  {
    exists first ::
      && EmptyRun(days, first, MAX_TRIES)
      && lo <= first && first + MAX_TRIES <= hi + 1
      && |Flat(days, first + MAX_TRIES, hi)| < limit
      && Flat(days, lo, first - 1) != []
  }

  /** The same for a walk forward from `lo`. */
  ghost predicate GapForward<T>(days: Days<T>, lo: int, hi: int, limit: nat)
    requires Readable(days, lo, hi)
  {
    exists first ::
      && EmptyRun(days, first, MAX_TRIES)
      && lo <= first && first + MAX_TRIES <= hi + 1
      && |Flat(days, lo, first - 1)| < limit
      && Flat(days, first + MAX_TRIES, hi) != []
  }

  lemma {:induction false} FlatSplit<T>(days: Days<T>, lo: int, mid: int, hi: int)
    requires Readable(days, lo, hi) && lo <= mid <= hi + 1
    ensures Flat(days, lo, hi) == Flat(days, lo, mid - 1) + Flat(days, mid, hi)
    decreases hi - mid
  {
    if mid <= hi {
      FlatSplit(days, lo, mid, hi - 1);
    } else {
      assert Flat(days, mid, hi) == [];
    }
  }

  lemma {:induction false} FlatLast<T>(days: Days<T>, lo: int, hi: int)
    requires Readable(days, lo, hi) && lo <= hi
    ensures Flat(days, lo, hi) == Flat(days, lo, hi - 1) + days(hi).value
  {
  }

  lemma {:induction false} FlatFirst<T>(days: Days<T>, lo: int, hi: int)
    requires Readable(days, lo, hi) && lo <= hi
    ensures Flat(days, lo, hi) == days(lo).value + Flat(days, lo + 1, hi)
  {
    FlatSplit(days, lo, lo + 1, hi);
    assert Flat(days, lo, lo) == [] + days(lo).value;
  }

  // ---- Backwards

  /** Whatever happens, the walk returns the newest items of the flat list, without holes. */
  lemma {:induction false} BackIsSuffix<T>(days: Days<T>, day: int, lo: int, remaining: nat, tries: nat)
    requires Readable(days, lo, day)
    ensures var r := WalkBack(days, day, lo, remaining, tries);
            r.Some? && |r.value| <= remaining && r.value == LastN(Flat(days, lo, day), |r.value|)
    decreases day - lo
  {
    if remaining == 0 || tries >= MAX_TRIES || day < lo {
    } else {
      var c := days(day).value;
      var buf := LastN(c, remaining);
      var tries' := if buf == [] then tries + 1 else 0;
      BackIsSuffix(days, day - 1, lo, remaining - |buf|, tries');
      var rest := WalkBack(days, day - 1, lo, remaining - |buf|, tries').value;
      WalkBackUnfold(days, day, lo, remaining, tries);
      FlatLast(days, lo, day);
      SuffixNext(rest, Flat(days, lo, day - 1), c, remaining);
    }
  }

  /** One day of the walk. */
  lemma {:induction false} WalkBackUnfold<T>(days: Days<T>, day: int, lo: int, remaining: nat, tries: nat)
    requires 0 < remaining && tries < MAX_TRIES && lo <= day
    ensures days(day).None? ==> WalkBack(days, day, lo, remaining, tries) == None
    ensures days(day).Some? ==>
      var buf := LastN(days(day).value, remaining);
      var rest := WalkBack(days, day - 1, lo, remaining - |buf|, if buf == [] then tries + 1 else 0);
      WalkBack(days, day, lo, remaining, tries) == if rest.None? then None else Some(rest.value + buf)
  {
  }

  /** A suffix of what came before, with the end of what comes next. */
  lemma {:induction false} SuffixNext<T>(rest: seq<T>, before: seq<T>, c: seq<T>, remaining: nat)
    requires rest == LastN(before, |rest|) && |rest| + |LastN(c, remaining)| <= remaining
    ensures var r := rest + LastN(c, remaining); |r| <= remaining && r == LastN(before + c, |r|)
  {
    LastNStep(before, c, remaining, rest);
  }

  /** Without a gap there is nothing beyond 100 empty days met before the limit. */
  lemma {:induction false} NothingBeyond<T>(days: Days<T>, lo: int, hi: int, limit: nat, day: int)
    requires Readable(days, lo, hi) && !GapBack(days, lo, hi, limit)
    requires lo <= day && day + MAX_TRIES <= hi && EmptyRun(days, day + 1, MAX_TRIES)
    requires |Flat(days, day + 1, hi)| < limit
    ensures Flat(days, lo, day) == []
  {
    FlatSplit(days, day + 1, day + 1 + MAX_TRIES, hi);
  }

  /** Without a gap the walk misses nothing. */
  lemma {:induction false} BackMissesNothing<T>(days: Days<T>, hi: int, limit: nat, day: int, lo: int, remaining: nat,
          tries: nat)
    requires Readable(days, lo, hi) && !GapBack(days, lo, hi, limit)
    requires lo - 1 <= day && day + tries <= hi && tries <= MAX_TRIES
    requires EmptyRun(days, day + 1, tries)
    requires remaining > 0 ==> |Flat(days, day + 1, hi)| + remaining == limit
    ensures var r := WalkBack(days, day, lo, remaining, tries);
            r.Some? && r.value == LastN(Flat(days, lo, day), remaining)
    decreases day - lo
  {
    if remaining == 0 || day < lo {
    } else if tries == MAX_TRIES {
      NothingBeyond(days, lo, hi, limit, day);
    } else {
      var c := days(day).value;
      var buf := LastN(c, remaining);
      FlatFirst(days, day, hi);
      BackMissesNothing(days, hi, limit, day - 1, lo, remaining - |buf|, if buf == [] then tries + 1 else 0);
      WalkBackUnfold(days, day, lo, remaining, tries);
      FlatLast(days, lo, day);
      LastNNext(Flat(days, lo, day - 1), c, remaining);
    }
  }

  lemma {:induction false} LastNNext<T>(before: seq<T>, c: seq<T>, n: nat)
    ensures LastN(before + c, n) == LastN(before, n - |LastN(c, n)|) + LastN(c, n)
  {
    if |c| <= n {
      LastNConcat(before, c, n);
    } else {
      LastNTail(before, c, n);
      assert LastN(before, 0) == [];
    }
  }

  /** A gap starting at `first` keeps the walk from going past it. */
  lemma {:induction false} BackStopsAtGap<T>(days: Days<T>, first: int, day: int, lo: int, remaining: nat, tries: nat)
    requires Readable(days, lo, day) && EmptyRun(days, first, MAX_TRIES) && lo <= first
    requires first - 1 <= day
    requires day >= first + MAX_TRIES ==> |Flat(days, first + MAX_TRIES, day)| < remaining
    requires day < first + MAX_TRIES ==> tries >= first + MAX_TRIES - 1 - day
    ensures var r := WalkBack(days, day, lo, remaining, tries);
            r.Some? && |r.value| <= |Flat(days, first + MAX_TRIES, day)|
    decreases day - lo
  {
    if remaining == 0 || tries >= MAX_TRIES || day < lo {
    } else {
      var c := days(day).value;
      var buf := LastN(c, remaining);
      BackStopsAtGap(days, first, day - 1, lo, remaining - |buf|, if buf == [] then tries + 1 else 0);
    }
  }

  /** The walk returns exactly the last `limit` items of the flat list unless a gap makes it give up. */
  lemma {:induction false} BackExact<T>(days: Days<T>, lo: int, hi: int, limit: nat)
    requires Readable(days, lo, hi)
    ensures WalkBack(days, hi, lo, limit, 0) == Some(LastN(Flat(days, lo, hi), limit))
        <==> !GapBack(days, lo, hi, limit)
  {
    if !GapBack(days, lo, hi, limit) {
      if lo <= hi {
        BackMissesNothing(days, hi, limit, hi, lo, limit, 0);
      }
    } else {
      var first :| EmptyRun(days, first, MAX_TRIES) && lo <= first && first + MAX_TRIES <= hi + 1
        && |Flat(days, first + MAX_TRIES, hi)| < limit && Flat(days, lo, first - 1) != [];
      BackStopsAtGap(days, first, hi, lo, limit, 0);
      BeyondGap(days, lo, first, hi);
    }
  }

  /** There is more on both sides of a gap than on one. */
  lemma {:induction false} BeyondGap<T>(days: Days<T>, lo: int, first: int, hi: int)
    requires Readable(days, lo, hi) && lo <= first && first + MAX_TRIES <= hi + 1
    ensures |Flat(days, lo, first - 1)| + |Flat(days, first + MAX_TRIES, hi)| <= |Flat(days, lo, hi)|
  {
    FlatSplit(days, lo, first + MAX_TRIES, hi);
    FlatSplit(days, lo, first, first + MAX_TRIES - 1);
  }

  // ---- Forwards

  lemma {:induction false} ForwardIsPrefix<T>(days: Days<T>, day: int, hi: int, remaining: nat, tries: nat)
    requires Readable(days, day, hi)
    ensures var r := WalkForward(days, day, hi, remaining, tries);
            r.Some? && |r.value| <= remaining && r.value == FirstN(Flat(days, day, hi), |r.value|)
    decreases hi - day
  {
    if remaining == 0 || tries >= MAX_TRIES || hi < day {
    } else {
      var c := days(day).value;
      var buf := FirstN(c, remaining);
      var tries' := if buf == [] then tries + 1 else 0;
      ForwardIsPrefix(days, day + 1, hi, remaining - |buf|, tries');
      var rest := WalkForward(days, day + 1, hi, remaining - |buf|, tries').value;
      assert WalkForward(days, day, hi, remaining, tries) == Some(buf + rest);
      FlatFirst(days, day, hi);
      FirstNStep(c, Flat(days, day + 1, hi), remaining, rest);
    }
  }

  lemma {:induction false} ForwardMissesNothing<T>(days: Days<T>, lo: int, limit: nat, day: int, hi: int,
          remaining: nat, tries: nat)
    requires Readable(days, lo, hi) && !GapForward(days, lo, hi, limit)
    requires day <= hi + 1 && lo <= day - tries && tries <= MAX_TRIES
    requires EmptyRun(days, day - tries, tries)
    requires remaining > 0 ==> |Flat(days, lo, day - 1)| + remaining == limit
    ensures var r := WalkForward(days, day, hi, remaining, tries);
            r.Some? && r.value == FirstN(Flat(days, day, hi), remaining)
    decreases hi - day
  {
    if remaining == 0 || hi < day {
    } else if tries == MAX_TRIES {
      FlatSplit(days, lo, day - MAX_TRIES, day - 1);
    } else {
      var c := days(day).value;
      var buf := FirstN(c, remaining);
      ForwardMissesNothing(days, lo, limit, day + 1, hi, remaining - |buf|, if buf == [] then tries + 1 else 0);
      FlatFirst(days, day, hi);
      if |c| <= remaining {
        FirstNConcat(c, Flat(days, day + 1, hi), remaining);
      }
    }
  }

  lemma {:induction false} ForwardStopsAtGap<T>(days: Days<T>, first: int, day: int, hi: int, remaining: nat,
          tries: nat)
    requires Readable(days, day, hi) && EmptyRun(days, first, MAX_TRIES) && first + MAX_TRIES <= hi + 1
    requires day <= first + MAX_TRIES
    requires day < first ==> |Flat(days, day, first - 1)| < remaining
    requires day >= first ==> tries >= day - first
    ensures var r := WalkForward(days, day, hi, remaining, tries);
            r.Some? && |r.value| <= |Flat(days, day, first - 1)|
    decreases hi - day
  {
    if remaining == 0 || tries >= MAX_TRIES || hi < day {
    } else {
      var c := days(day).value;
      var buf := FirstN(c, remaining);
      if day < first {
        FlatFirst(days, day, first - 1);
      }
      ForwardStopsAtGap(days, first, day + 1, hi, remaining - |buf|, if buf == [] then tries + 1 else 0);
    }
  }

  lemma {:induction false} ForwardExact<T>(days: Days<T>, lo: int, hi: int, limit: nat)
    requires Readable(days, lo, hi)
    ensures WalkForward(days, lo, hi, limit, 0) == Some(FirstN(Flat(days, lo, hi), limit))
        <==> !GapForward(days, lo, hi, limit)
  {
    if !GapForward(days, lo, hi, limit) {
      if lo <= hi {
        ForwardMissesNothing(days, lo, limit, lo, hi, limit, 0);
      }
    } else {
      var first :| EmptyRun(days, first, MAX_TRIES) && lo <= first && first + MAX_TRIES <= hi + 1
        && |Flat(days, lo, first - 1)| < limit && Flat(days, first + MAX_TRIES, hi) != [];
      ForwardStopsAtGap(days, first, lo, hi, limit, 0);
      BeyondGap(days, lo, first, hi);
    }
  }

  // ---- Walks over equal days are equal

  lemma {:induction false} WalkBackSame<T>(a: Days<T>, b: Days<T>, day: int, lo: int, remaining: nat, tries: nat)
    requires forall d :: lo <= d <= day ==> a(d) == b(d)
    ensures WalkBack(a, day, lo, remaining, tries) == WalkBack(b, day, lo, remaining, tries)
    decreases day - lo
  {
    if remaining > 0 && tries < MAX_TRIES && lo <= day {
      assert a(day) == b(day);
      WalkBackUnfold(a, day, lo, remaining, tries);
      WalkBackUnfold(b, day, lo, remaining, tries);
      if a(day).Some? {
        var buf := LastN(a(day).value, remaining);
        WalkBackSame(a, b, day - 1, lo, remaining - |buf|, if buf == [] then tries + 1 else 0);
      }
    }
  }

  /** Opening one more day without a match at the far end changes nothing. */
  lemma {:induction false} WalkBackFurther<T>(days: Days<T>, day: int, lo: int, remaining: nat, tries: nat)
    requires days(lo - 1) == Some([])
    ensures WalkBack(days, day, lo, remaining, tries) == WalkBack(days, day, lo - 1, remaining, tries)
    decreases day - lo
  {
    if remaining == 0 || tries >= MAX_TRIES || day < lo {
      if day == lo - 1 && !(remaining == 0 || tries >= MAX_TRIES) {
        var none: seq<T> := LastN(days(day).value, remaining);
        assert none + none == [];
        assert WalkBack(days, day - 1, lo - 1, remaining, tries + 1) == Some([]);
      }
    } else if days(day).Some? {
      var buf := LastN(days(day).value, remaining);
      WalkBackFurther(days, day - 1, lo, remaining - |buf|, if buf == [] then tries + 1 else 0);
    }
  }

  lemma {:induction false} WalkForwardFurther<T>(days: Days<T>, day: int, hi: int, remaining: nat, tries: nat)
    requires days(hi + 1) == Some([])
    ensures WalkForward(days, day, hi, remaining, tries) == WalkForward(days, day, hi + 1, remaining, tries)
    decreases hi - day
  {
    if remaining == 0 || tries >= MAX_TRIES || hi < day {
      if day == hi + 1 && !(remaining == 0 || tries >= MAX_TRIES) {
        var none: seq<T> := FirstN(days(day).value, remaining);
        assert none + none == [];
        assert WalkForward(days, day + 1, hi + 1, remaining, tries + 1) == Some([]);
      }
    } else if days(day).Some? {
      var buf := FirstN(days(day).value, remaining);
      WalkForwardFurther(days, day + 1, hi, remaining - |buf|, if buf == [] then tries + 1 else 0);
    }
  }

  /** Filtering every day is filtering the flat list. */
  lemma {:induction false} FlatFilter<T>(all: Days<T>, some: Days<T>, lo: int, hi: int, p: T -> bool)
    requires Readable(all, lo, hi)
    requires forall d :: lo <= d <= hi ==> some(d) == Some(Filter(all(d).value, p))
    ensures Readable(some, lo, hi) && Flat(some, lo, hi) == Filter(Flat(all, lo, hi), p)
    decreases hi - lo
  {
    if lo <= hi {
      var before, last := Flat(all, lo, hi - 1), all(hi).value;
      FlatFilter(all, some, lo, hi - 1, p);
      FilterConcat(before, last, p);
      assert Flat(all, lo, hi) == before + last;
      assert Flat(some, lo, hi) == Flat(some, lo, hi - 1) + some(hi).value;
    }
  }
}
