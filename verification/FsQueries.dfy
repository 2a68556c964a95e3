/** The day-walking queries of `msgstore/fs.go` over the files of one log directory. */
module FsQueries {
  import opened Text
  import opened Clock
  import opened DayWalk
  import opened LogFile

  /** The contents of a log directory: one file per day. */
  type Files = map<int, string>

  function FileOf(files: Files, day: int): Option<string> {
    if day in files then Some(files[day]) else None
  }

  /** Where reading a day backwards starts: at `start` on the first day, at the end of the day after that. */
  function RefBack(start: Time, day: int): Time {
    if day == start.day then start else EndOfDay(day)
  }

  /** Where reading a day forwards starts: at `start` on the first day, at midnight after that. */
  function RefForward(start: Time, day: int): Time {
    if day == start.day then start else Midnight(day)
  }

  function ReadBack<M>(files: Files, decode: Decoder<M>, day: int, ref: Time, end: Time, offset: int,
          selector: Selector<M>): Option<seq<Stamped<M>>> {
    ScanBefore(FileTokens(FileOf(files, day), offset), decode, day, ref, end, selector)
  }

  /** What each day contributes to `getBeforeTime`. */
  function DaysBefore<M>(files: Files, decode: Decoder<M>, start: Time, end: Time,
          selector: Selector<M>): Days<Stamped<M>> {
    day => ReadBack(files, decode, day, RefBack(start, day), end, -1, selector)
  }

  /** What each day contributes to `getAfterTime` when at most so many messages are wanted. */
  function SharesAfter<M>(files: Files, decode: Decoder<M>, start: Time, end: Time,
          selector: Selector<M>): Shares<Stamped<M>> {
    (day: int, limit: nat) => ScanAfter(FileTokens(FileOf(files, day), -1), decode, day, RefForward(start, day), end,
        limit, selector)
  }

  /** The offset applies on the day the message ID names only. */
  function OffsetOn(day: int, after: MsgPosition): int {
    if after.offset >= 0 && day == after.day then after.offset else -1
  }

  /** What each day contributes to `LoadLatestID`. */
  function DaysSince<M>(files: Files, decode: Decoder<M>, now: Time, after: MsgPosition): Days<Stamped<M>> {
    day => ReadBack(files, decode, day, RefBack(now, day), ZERO, OffsetOn(day, after), All)
  }

  /** The part of a message ID that points into the log directory. */
  datatype MsgPosition = MsgPosition(day: int, offset: int)

  predicate All<M>(msg: M) { true }

  function OrNow(start: Time, now: Time): Time {
    if start == ZERO then now else start
  }

  /** The oldest day a walk back from `start` opens. */
  function OldestDay(start: Time, end: Time): int {
    if Before(end, RefBack(start, end.day)) then end.day else end.day + 1
  }

  /** The newest day a walk forward to `end` opens. */
  function NewestDay(start: Time, end: Time): int {
    if Before(RefForward(start, end.day), end) then end.day else end.day - 1
  }

  /** Marks a day that is opened. */
  function Opened(day: int): int {
    day
  }

  /** The days are the ones described, as far as they are opened. */
  ghost predicate Are<T(!new)>(days: Days<T>, described: Days<T>) {
    forall d {:trigger Opened(d)} :: days(Opened(d)) == described(d)
  }

  /** Opens and reads the file of the day `ref` falls on. */
  method OpenBefore<M(0,!new)>(files: Files, decode: Decoder<M>, ref: Time, end: Time, remaining: nat,
          selector: Selector<M>, ghost start: Time, ghost days: Days<Stamped<M>>)
    returns (parsed: Option<seq<Stamped<M>>>)
    requires remaining > 0 && ref == RefBack(start, ref.day)
    requires Are(days, DaysBefore(files, decode, start, end, selector))
    ensures parsed == LastOf(days(ref.day), remaining)
  {
    assert Opened(ref.day) == ref.day;
    parsed := ParseMessagesBefore(FileOf(files, ref.day), decode, ref, end, remaining, -1, selector);
  }

  method OpenAfter<M>(files: Files, decode: Decoder<M>, ref: Time, end: Time, remaining: nat, selector: Selector<M>,
          ghost start: Time)
    returns (parsed: Option<seq<Stamped<M>>>)
    requires ref == RefForward(start, ref.day)
    ensures parsed == SharesAfter(files, decode, start, end, selector)(ref.day, remaining)
    ensures parsed.Some? ==> |parsed.value| <= remaining
  {
    parsed := ParseMessagesAfter(FileOf(files, ref.day), decode, ref, end, remaining, selector);
    ScanAfterWithinLimit(FileTokens(FileOf(files, ref.day), -1), decode, ref.day, ref, end, remaining, selector);
  }

  /** Going on back while there is time left opens exactly the days down to the oldest one. */
  lemma {:induction false} BackGuard(from: Time, ref: Time, end: Time)
    requires ref.day <= from.day && ref == RefBack(from, ref.day)
    ensures Before(end, ref) <==> OldestDay(from, end) <= ref.day
  {
  }

  method GetBeforeTime<M(0,!new)>(files: Files, decode: Decoder<M>, start0: Time, end: Time, limit: nat, now: Time,
          selector: Selector<M>)
    returns (r: Option<seq<Stamped<M>>>)
    ensures var from := OrNow(start0, now);
            var days := DaysBefore(files, decode, from, end, selector);
            r == CollectBack(days, from.day, OldestDay(from, end), limit, 0, [])
  {
    var from := OrNow(start0, now);
    r := WalkBefore(files, decode, from, end, limit, selector, DaysBefore(files, decode, from, end, selector));
  }

  /** The loop over the days. */
  method WalkBefore<M(0,!new)>(files: Files, decode: Decoder<M>, from: Time, end: Time, limit: nat,
          selector: Selector<M>, ghost days: Days<Stamped<M>>)
    returns (r: Option<seq<Stamped<M>>>)
    requires Are(days, DaysBefore(files, decode, from, end, selector))
    ensures r == CollectBack(days, from.day, OldestDay(from, end), limit, 0, [])
  {
    var start := from;
    ghost var lo := OldestDay(start, end);
    BackGuard(from, start, end);
    var messages: seq<Stamped<M>> := [];
    var remaining: nat, tries: nat := limit, 0;
    while remaining > 0 && tries < MAX_TRIES && Before(end, start)
      invariant start.day <= from.day && start == RefBack(from, start.day) && (Before(end, start) <==> lo <= start.day)
      invariant CollectBack(days, start.day, lo, remaining, tries, messages)
          == CollectBack(days, from.day, lo, limit, 0, [])
      decreases remaining, MAX_TRIES - tries
    {
      var parsed := OpenBefore(files, decode, start, end, remaining, selector, from, days);
      if parsed.None? {
        return None;
      }
      var buf := parsed.value;
      tries := if |buf| == 0 then tries + 1 else 0;
      messages := buf + messages;
      remaining := remaining - |buf|;
      start := EndOfDay(start.day - 1);
      BackGuard(from, start, end);
    }
    r := Some(messages);
  }

  method GetAfterTime<M>(files: Files, decode: Decoder<M>, start0: Time, end0: Time, limit: nat, now: Time,
          selector: Selector<M>)
    returns (r: Option<seq<Stamped<M>>>)
    ensures var end := OrNow(end0, now);
            r == CollectForward(SharesAfter(files, decode, start0, end, selector), start0.day, NewestDay(start0, end),
                limit, 0, [])
  {
    var start, end := start0, OrNow(end0, now);
    ghost var shares, hi := SharesAfter(files, decode, start0, end, selector), NewestDay(start0, end);
    var messages: seq<Stamped<M>> := [];
    var remaining: nat, tries: nat := limit, 0;
    while remaining > 0 && tries < MAX_TRIES && Before(start, end)
      invariant start0.day <= start.day && start == RefForward(start0, start.day)
      invariant CollectForward(shares, start.day, hi, remaining, tries, messages)
          == CollectForward(shares, start0.day, hi, limit, 0, [])
      decreases remaining, MAX_TRIES - tries
    {
      var parsed := OpenAfter(files, decode, start, end, remaining, selector, start0);
      if parsed.None? {
        return None;
      }
      var buf := parsed.value;
      tries := if |buf| == 0 then tries + 1 else 0;
      messages := messages + buf;
      remaining := remaining - |buf|;
      start := Midnight(start.day + 1);
    }
    r := Some(messages);
  }

  lemma {:induction false} ScanAfterWithinLimit<M>(tokens: seq<string>, decode: Decoder<M>, day: int, ref: Time,
          end: Time, limit: nat, selector: Selector<M>)
    ensures var r := ScanAfter(tokens, decode, day, ref, end, limit, selector);
            r.Some? ==> |r.value| <= limit
    decreases |tokens|
  {
    if tokens != [] && limit > 0 {
      ScanAfterWithinLimit(tokens[1..], decode, day, ref, end, limit, selector);
      ScanAfterWithinLimit(tokens[1..], decode, day, ref, end, limit - 1, selector);
    }
  }

  /** One day of `LoadLatestID`, read from the offset of the message ID if that is its day. */
  method ParseDay<M(0,!new)>(files: Files, decode: Decoder<M>, t: Time, after: MsgPosition, remaining: nat,
          ghost now: Time, ghost days: Days<Stamped<M>>)
    returns (parsed: Option<seq<Stamped<M>>>)
    requires remaining > 0 && t == RefBack(now, t.day) && Are(days, DaysSince(files, decode, now, after))
    ensures parsed == LastOf(days(t.day), remaining)
  {
    assert Opened(t.day) == t.day;
    var offset := -1;
    if after.offset >= 0 && Midnight(t.day) == Midnight(after.day) {
      offset := after.offset;
    }
    parsed := ParseMessagesBefore(FileOf(files, t.day), decode, t, ZERO, remaining, offset, All);
  }

  /** `after` is where the message ID points, or `MsgPosition(0, 0)` when there is no ID. */
  method LoadLatest<M(0,!new)>(files: Files, decode: Decoder<M>, after: MsgPosition, limit: nat, now: Time)
    returns (r: Option<seq<Stamped<M>>>)
    ensures r == CollectBack(DaysSince(files, decode, now, after), now.day, after.day, limit, 0, [])
  {
    r := WalkSince(files, decode, after, limit, now, DaysSince(files, decode, now, after));
  }

  /** The loop over the days. */
  method WalkSince<M(0,!new)>(files: Files, decode: Decoder<M>, after: MsgPosition, limit: nat, now: Time,
          ghost days: Days<Stamped<M>>)
    returns (r: Option<seq<Stamped<M>>>)
    requires Are(days, DaysSince(files, decode, now, after))
    ensures r == CollectBack(days, now.day, after.day, limit, 0, [])
  {
    var t := now;
    var history: seq<Stamped<M>> := [];
    var remaining: nat, tries: nat := limit, 0;
    while remaining > 0 && tries < MAX_TRIES && !Before(Midnight(t.day), Midnight(after.day))
      invariant t.day <= now.day && t == RefBack(now, t.day)
      invariant CollectBack(days, t.day, after.day, remaining, tries, history)
          == CollectBack(days, now.day, after.day, limit, 0, [])
      decreases remaining, MAX_TRIES - tries
    {
      var parsed := ParseDay(files, decode, t, after, remaining, now, days);
      if parsed.None? {
        return None;
      }
      var buf := parsed.value;
      tries := if |buf| == 0 then tries + 1 else 0;
      history := buf + history;
      remaining := remaining - |buf|;
      t := EndOfDay(t.day - 1);
    }
    r := Some(history);
  }
}
