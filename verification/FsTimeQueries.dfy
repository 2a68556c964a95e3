/** The time-bounded queries of the filesystem store against one flat, time-ordered log. */
module FsTimeQueries {
  import opened Seqs
  import opened Text
  import opened Clock
  import opened DayWalk
  import opened LogFile
  import opened FsQueries

  function DayEntries<M>(files: Files, decode: Decoder<M>, day: int): seq<Stamped<M>> {
    Entries(FileTokens(FileOf(files, day), -1), decode, day)
  }

  /** Files as the store writes them: every line parses, stamps are whole seconds of the file's own day, in order. */
  ghost predicate Orderly<M>(files: Files, decode: Decoder<M>) {
    forall day :: OrderlyDay(files, decode, day)
  }

  predicate OrderlyDay<M>(files: Files, decode: Decoder<M>, day: int) {
    var entries := DayEntries(files, decode, day);
    && Clean(FileTokens(FileOf(files, day), -1), decode, day)
    && SortedByTime(entries)
    && forall i :: 0 <= i < |entries| ==> WholeSecondOf(entries[i].time, day)
  }

  predicate WholeSecondOf(t: Time, day: int) {
    t.day == day && t.nano <= NANOS_PER_DAY - NANOS
  }

  function LogDays<M>(files: Files, decode: Decoder<M>): Days<Stamped<M>> {
    day => Some(DayEntries(files, decode, day))
  }

  /** The flat log: every message of the days `lo` to `hi`, oldest first. */
  ghost function FlatLog<M>(files: Files, decode: Decoder<M>, lo: int, hi: int): seq<Stamped<M>> {
    Flat(LogDays(files, decode), lo, hi)
  }

  /** Each day's messages strictly between two times. */
  function MatchDays<M>(files: Files, decode: Decoder<M>, start: Time, end: Time,
          selector: Selector<M>): Days<Stamped<M>> {
    day => Some(Filter(DayEntries(files, decode, day), Between(start, end, selector)))
  }

  /** The flat log restricted to messages strictly between two times. */
  ghost function Matches<M>(files: Files, decode: Decoder<M>, start: Time, end: Time,
          selector: Selector<M>): seq<Stamped<M>> {
    Filter(FlatLog(files, decode, start.day, end.day), Between(start, end, selector))
  }

  lemma {:induction false} FilterSame<T>(s: seq<T>, p: T -> bool, q: T -> bool)
    requires forall i :: 0 <= i < |s| ==> p(s[i]) == q(s[i])
    ensures Filter(s, p) == Filter(s, q)
  {
    if s != [] {
      FilterSame(s[1..], p, q);
    }
  }

  // ---- Backwards

  lemma {:induction false} DayBeforeMatches<M>(files: Files, decode: Decoder<M>, start: Time, end: Time,
          selector: Selector<M>, day: int)
    requires Orderly(files, decode) && day <= start.day
    ensures DaysBefore(files, decode, start, end, selector)(day) == MatchDays(files, decode, end, start, selector)(day)
  {
    var entries := DayEntries(files, decode, day);
    var ref := RefBack(start, day);
    assert OrderlyDay(files, decode, day);
    SortedCuts(entries, ref);
    ScanBeforeFilters(FileTokens(FileOf(files, day), -1), decode, day, ref, end, selector);
    FilterSame(entries, Between(end, ref, selector), Between(end, start, selector));
  }

  /** The result of `getBeforeTime`, as `GetBeforeTime` states it. */
  ghost function BeforeTime<M>(files: Files, decode: Decoder<M>, start: Time, end: Time, limit: nat,
          selector: Selector<M>): Option<seq<Stamped<M>>> {
    CollectBack(DaysBefore(files, decode, start, end, selector), start.day, OldestDay(start, end), limit, 0, [])
  }

  /** `getBeforeTime` walks over exactly the flat log's matches. */
  lemma {:induction false} BeforeTimeWalks<M>(files: Files, decode: Decoder<M>, start: Time, end: Time, limit: nat,
          selector: Selector<M>)
    requires Orderly(files, decode)
    ensures BeforeTime(files, decode, start, end, limit, selector)
         == WalkBack(MatchDays(files, decode, end, start, selector), start.day, end.day, limit, 0)
  {
    var days, matches := DaysBefore(files, decode, start, end, selector),
        MatchDays(files, decode, end, start, selector);
    var lo := OldestDay(start, end);
    assert BeforeTime(files, decode, start, end, limit, selector) == CollectBack(days, start.day, lo, limit, 0, []);
    CollectBackIsWalk(days, start.day, lo, limit, 0, []);
    forall d | lo <= d <= start.day ensures days(d) == matches(d) {
      DayBeforeMatches(files, decode, start, end, selector, d);
    }
    WalkBackSame(days, matches, start.day, lo, limit, 0);
    if lo == end.day + 1 {
      NothingBeforeOldest(files, decode, start, end, selector);
      WalkBackFurther(matches, start.day, lo, limit, 0);
    }
  }

  lemma {:induction false} NothingBeforeOldest<M>(files: Files, decode: Decoder<M>, start: Time, end: Time,
          selector: Selector<M>)
    requires Orderly(files, decode) && OldestDay(start, end) == end.day + 1
    ensures MatchDays(files, decode, end, start, selector)(end.day) == Some([])
  {
    assert OrderlyDay(files, decode, end.day);
    FilterNone(DayEntries(files, decode, end.day), Between(end, start, selector));
  }

  /** `getBeforeTime` returns the newest messages strictly between the bounds, with none missing in between;
      they are exactly the last `limit` of them if and only if it does not meet 100 days without a match. */
  lemma {:induction false} BeforeTimeExact<M>(files: Files, decode: Decoder<M>, start: Time, end: Time, limit: nat,
          selector: Selector<M>)
    requires Orderly(files, decode)
    ensures var r := BeforeTime(files, decode, start, end, limit, selector);
            var matches := Matches(files, decode, end, start, selector);
            && r.Some? && |r.value| <= limit && r.value == LastN(matches, |r.value|)
            && (r.value == LastN(matches, limit)
                <==> !GapBack(MatchDays(files, decode, end, start, selector), end.day, start.day, limit))
  {
    var days := MatchDays(files, decode, end, start, selector);
    BeforeTimeWalks(files, decode, start, end, limit, selector);
    FlatFilter(LogDays(files, decode), days, end.day, start.day, Between(end, start, selector));
    BackIsSuffix(days, start.day, end.day, limit, 0);
    BackExact(days, end.day, start.day, limit);
  }

  // ---- Forwards

  /** Each day's messages after the point where `getAfterTime` starts reading that day. */
  function DayMatchesAfter<M>(files: Files, decode: Decoder<M>, start: Time, end: Time,
          selector: Selector<M>): Days<Stamped<M>> {
    day => Some(Filter(DayEntries(files, decode, day), Between(RefForward(start, day), end, selector)))
  }

  lemma {:induction false} ShareAfterMatches<M>(files: Files, decode: Decoder<M>, start: Time, end: Time, day: int,
          limit: nat, selector: Selector<M>)
    requires Orderly(files, decode)
    ensures SharesAfter(files, decode, start, end, selector)(day, limit)
         == Some(FirstN(DayMatchesAfter(files, decode, start, end, selector)(day).value, limit))
  {
    assert OrderlyDay(files, decode, day);
    SortedCuts(DayEntries(files, decode, day), end);
    ScanAfterFilters(FileTokens(FileOf(files, day), -1), decode, day, RefForward(start, day), end, limit, selector);
  }

  /** Stamped at exactly midnight of a day after the one the query starts on. */
  predicate LateMidnight<M>(e: Stamped<M>, start: Time) {
    e.time.day > start.day && e.time.nano == 0
  }

  function NotLateMidnight<M>(start: Time): Stamped<M> -> bool {
    (e: Stamped<M>) => !LateMidnight(e, start)
  }

  /** The matches `getAfterTime` can find: reading a later day from exactly midnight leaves out midnight itself. */
  lemma {:induction false} FoundAfter<M>(files: Files, decode: Decoder<M>, start: Time, end: Time,
          selector: Selector<M>)
    requires Orderly(files, decode)
    ensures var days := DayMatchesAfter(files, decode, start, end, selector);
            && Readable(days, start.day, end.day)
            && Flat(days, start.day, end.day) == Filter(Matches(files, decode, start, end, selector),
                NotLateMidnight(start))
  {
    var matches, found := MatchDays(files, decode, start, end, selector),
        DayMatchesAfter(files, decode, start, end, selector);
    FlatFilter(LogDays(files, decode), matches, start.day, end.day, Between(start, end, selector));
    forall d | start.day <= d <= end.day ensures found(d) == Some(Filter(matches(d).value, NotLateMidnight(start))) {
      DayFoundAfter(files, decode, start, end, selector, d);
    }
    FlatFilter(matches, found, start.day, end.day, NotLateMidnight(start));
  }

  lemma {:induction false} DayFoundAfter<M>(files: Files, decode: Decoder<M>, start: Time, end: Time,
          selector: Selector<M>, day: int)
    requires Orderly(files, decode) && start.day <= day
    ensures Filter(Filter(DayEntries(files, decode, day), Between(start, end, selector)), NotLateMidnight(start))
         == Filter(DayEntries(files, decode, day), Between(RefForward(start, day), end, selector))
  {
    var entries := DayEntries(files, decode, day);
    assert OrderlyDay(files, decode, day);
    FilterTwice(entries, Between(start, end, selector), NotLateMidnight(start),
        Between(RefForward(start, day), end, selector));
  }

  lemma {:induction false} FilterTwice<T>(s: seq<T>, p: T -> bool, q: T -> bool, both: T -> bool)
    requires forall i :: 0 <= i < |s| ==> both(s[i]) == (p(s[i]) && q(s[i]))
    ensures Filter(Filter(s, p), q) == Filter(s, both)
  {
    if s != [] {
      FilterTwice(s[1..], p, q, both);
      FilterConcat(if p(s[0]) then [s[0]] else [], Filter(s[1..], p), q);
    }
  }

  /** The result of `getAfterTime`, as `GetAfterTime` states it. */
  ghost function AfterTime<M>(files: Files, decode: Decoder<M>, start: Time, end: Time, limit: nat,
          selector: Selector<M>): Option<seq<Stamped<M>>> {
    CollectForward(SharesAfter(files, decode, start, end, selector), start.day, NewestDay(start, end), limit, 0, [])
  }

  /** `getAfterTime` walks over exactly those matches. */
  lemma {:induction false} AfterTimeIsWalk<M>(files: Files, decode: Decoder<M>, start: Time, end: Time, limit: nat,
          selector: Selector<M>)
    requires Orderly(files, decode)
    ensures AfterTime(files, decode, start, end, limit, selector)
         == WalkForward(DayMatchesAfter(files, decode, start, end, selector), start.day, end.day, limit, 0)
  {
    var days := DayMatchesAfter(files, decode, start, end, selector);
    var hi := NewestDay(start, end);
    var shares := SharesAfter(files, decode, start, end, selector);
    forall d, n: nat | start.day <= d <= hi ensures shares(d, n) == Some(FirstN(days(d).value, n)) {
      ShareAfterMatches(files, decode, start, end, d, n, selector);
    }
    CollectForwardIsWalk(shares, days, start.day, hi, limit, 0, []);
    var r := WalkForward(days, start.day, hi, limit, 0).value;
    assert [] + r == r;
    if hi == end.day - 1 {
      assert OrderlyDay(files, decode, end.day);
      FilterNone(DayEntries(files, decode, end.day), Between(RefForward(start, end.day), end, selector));
      assert days(hi + 1) == Some([]);
      WalkForwardFurther(days, start.day, hi, limit, 0);
    }
  }

  /** `getAfterTime` returns the oldest messages strictly between the bounds that are not stamped at midnight of a later
      day; they are exactly the first `limit` of those if and only if it does not meet 100 days without one. */
  lemma {:induction false} AfterTimeExact<M>(files: Files, decode: Decoder<M>, start: Time, end: Time, limit: nat,
          selector: Selector<M>)
    requires Orderly(files, decode)
    ensures var r := AfterTime(files, decode, start, end, limit, selector);
            var found := Filter(Matches(files, decode, start, end, selector), NotLateMidnight(start));
            && r.Some? && |r.value| <= limit && r.value == FirstN(found, |r.value|)
            && (r.value == FirstN(found, limit) <==> !ForwardGap(files, decode, start, end, limit, selector))
  {
    var days := DayMatchesAfter(files, decode, start, end, selector);
    AfterTimeIsWalk(files, decode, start, end, limit, selector);
    FoundAfter(files, decode, start, end, selector);
    ForwardIsPrefix(days, start.day, end.day, limit, 0);
    ForwardExact(days, start.day, end.day, limit);
  }

  /** The result is the first `limit` messages strictly between the bounds exactly when there is no such gap and none of
      them is stamped at midnight of a later day. */
  lemma {:induction false} AfterTimeComplete<M>(files: Files, decode: Decoder<M>, start: Time, end: Time, limit: nat,
          selector: Selector<M>)
    requires Orderly(files, decode)
    ensures var matches := Matches(files, decode, start, end, selector);
            AfterTime(files, decode, start, end, limit, selector) == Some(FirstN(matches, limit))
            <==> && !ForwardGap(files, decode, start, end, limit, selector)
                 && forall i :: 0 <= i < |matches| && i < limit ==> !LateMidnight(matches[i], start)
  {
    var matches := Matches(files, decode, start, end, selector);
    var r := AfterTime(files, decode, start, end, limit, selector);
    AfterTimeExact(files, decode, start, end, limit, selector);
    FilterKeepsFirst(matches, NotLateMidnight(start), limit);
    if r == Some(FirstN(matches, limit)) {
      assert r.value == FirstN(Filter(matches, NotLateMidnight(start)), limit);
    }
  }

  ghost predicate ForwardGap<M>(files: Files, decode: Decoder<M>, start: Time, end: Time, limit: nat,
          selector: Selector<M>) {
    GapForward(DayMatchesAfter(files, decode, start, end, selector), start.day, end.day, limit)
  }
}
