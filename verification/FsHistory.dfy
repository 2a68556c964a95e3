/** The time-bounded queries of the filesystem store in terms of the messages that were appended to it. */
module FsHistory {
  import opened Seqs
  import opened Text
  import opened Clock
  import opened ZncLog
  import opened DayWalk
  import opened LogFile
  import opened FsQueries
  import opened FsResume
  import opened FsTimeQueries
  import opened FsStore

  // ---- Logs whose stamps do not go back

  /** A line that reads back without error, at a whole second of its own day. */
  predicate Plain<M>(r: Record, decode: Decoder<M>) {
    var d := decode(r.line, r.day);
    NoBreaks(r.line) && !d.Malformed? && (d.Entry? ==> WholeSecondOf(d.time, r.day))
  }

  /** Every line is of that kind, days do not go back, and neither do the times of messages. */
  predicate Chronicle<M>(log: seq<Record>, decode: Decoder<M>) {
    && DaysInOrder(log)
    && (forall i :: 0 <= i < |log| ==> Plain(log[i], decode))
    && forall i, j :: 0 <= i < j < |log| ==> NotBefore(log[j], log[i], decode)
  }

  predicate NotBefore<M>(b: Record, a: Record, decode: Decoder<M>) {
    var d, e := decode(a.line, a.day), decode(b.line, b.day);
    d.Entry? && e.Entry? ==> !Before(e.time, d.time)
  }

  lemma {:induction false} ChroniclePrefix<M>(init: seq<Record>, r: Record, decode: Decoder<M>)
    requires Chronicle(init + [r], decode)
    ensures Chronicle(init, decode) && Plain(r, decode)
    ensures forall i :: 0 <= i < |init| ==> NotBefore(r, init[i], decode) && init[i].day <= r.day
  {
    var log := init + [r];
    assert log[|init|] == r && forall i :: 0 <= i < |init| ==> log[i] == init[i];
  }

  lemma {:induction false} LinesRead(files: Files, log: seq<Record>, day: int)
    requires HoldsLog(files, log) && forall i :: 0 <= i < |log| ==> NoBreaks(log[i].line)
    ensures FileTokens(FileOf(files, day), -1) == Lines(log, day)
  {
    TokensOfBytes(log, day);
  }

  /** Nothing of one day is after what no record of it is after. */
  lemma {:induction false} NothingAfter<M>(log: seq<Record>, decode: Decoder<M>, day: int, r: Record)
    requires decode(r.line, r.day).Entry? && forall i :: 0 <= i < |log| ==> NotBefore(r, log[i], decode)
    ensures var entries := RecordDays(log, decode)(day).value;
            forall i :: 0 <= i < |entries| ==> !Before(decode(r.line, r.day).time, entries[i].time)
  {
    if log != [] {
      var init, last := log[..|log| - 1], log[|log| - 1];
      assert log == init + [last];
      NothingAfter(init, decode, day, r);
      RecordDaysAppend(init, last, decode, day);
    }
  }

  /** Each day of such a log is read without error, in order of time, at whole seconds of that day. */
  lemma {:induction false} DayInOrder<M>(log: seq<Record>, decode: Decoder<M>, day: int)
    requires Chronicle(log, decode)
    ensures var entries := RecordDays(log, decode)(day).value;
            && Clean(Lines(log, day), decode, day) && SortedByTime(entries)
            && forall i :: 0 <= i < |entries| ==> WholeSecondOf(entries[i].time, day)
  {
    if log != [] {
      var init, r := log[..|log| - 1], log[|log| - 1];
      assert log == init + [r];
      ChroniclePrefix(init, r, decode);
      DayInOrder(init, decode, day);
      RecordDaysAppend(init, r, decode, day);
      LinesConcat(init, [r], day);
      if decode(r.line, r.day).Entry? {
        NothingAfter(init, decode, day, r);
      }
    }
  }

  /** Files that hold such a log are what the queries expect. */
  lemma {:induction false} ChronicleIsOrderly<M>(files: Files, log: seq<Record>, decode: Decoder<M>)
    requires HoldsLog(files, log) && Chronicle(log, decode)
    ensures Orderly(files, decode)
  {
    forall day ensures OrderlyDay(files, decode, day) {
      LinesRead(files, log, day);
      DayInOrder(log, decode, day);
    }
  }

  /** What a filter selects from some days, if it selects nothing from others, is what it selects from the whole log. */
  lemma {:induction false} FilteredFlat<M(!new)>(log: seq<Record>, decode: Decoder<M>, lo: int, hi: int,
          p: Stamped<M> -> bool)
    requires Chronicle(log, decode) && forall e {:trigger p(e)} :: p(e) ==> lo <= e.time.day <= hi
    ensures Readable(RecordDays(log, decode), lo, hi)
    ensures Filter(Flat(RecordDays(log, decode), lo, hi), p) == Filter(LogEntries(log, decode), p)
  {
    if log == [] {
      FlatEmpty(RecordDays(log, decode), lo, hi);
    } else {
      var init, r := log[..|log| - 1], log[|log| - 1];
      assert log == init + [r];
      ChroniclePrefix(init, r, decode);
      FilteredFlat(init, decode, lo, hi, p);
      var x := EntryOf(r, decode);
      FlatNext(init, r, decode, lo, hi);
      if !(lo <= r.day <= hi) {
        FilterNone(x, p);
      }
      FilterNext(Flat(RecordDays(init, decode), lo, hi), LogEntries(init, decode), x, lo <= r.day <= hi, p);
    }
  }

  /** Items the filter drops may be left out. */
  lemma {:induction false} FilterNext<T>(some: seq<T>, all: seq<T>, x: seq<T>, included: bool, p: T -> bool)
    requires Filter(some, p) == Filter(all, p) && (included || Filter(x, p) == [])
    ensures Filter(if included then some + x else some, p) == Filter(all + x, p)
  {
    FilterConcat(some, x, p);
    FilterConcat(all, x, p);
  }

  lemma {:induction false} FlatNext<M>(init: seq<Record>, r: Record, decode: Decoder<M>, lo: int, hi: int)
    requires Readable(RecordDays(init, decode), lo, hi) && forall i :: 0 <= i < |init| ==> init[i].day <= r.day
    ensures var a, b := RecordDays(init, decode), RecordDays(init + [r], decode);
            && Readable(b, lo, hi)
            && Flat(b, lo, hi) == if lo <= r.day <= hi then Flat(a, lo, hi) + EntryOf(r, decode) else Flat(a, lo, hi)
  {
    var a, b := RecordDays(init, decode), RecordDays(init + [r], decode);
    forall d ensures if d == r.day then b(d).value == a(d).value + EntryOf(r, decode) else b(d) == a(d) {
      RecordDaysAppend(init, r, decode, d);
    }
    if lo <= r.day <= hi {
      forall d | r.day < d <= hi ensures a(d) == Some([]) {
        NoLinesAfter(init, d);
      }
      FlatExtend(a, b, lo, hi, r.day, EntryOf(r, decode));
    } else {
      FlatSame(a, b, lo, hi);
    }
  }

  /** The matches of a query are the messages of the log strictly between the bounds. */
  lemma {:induction false} MatchesOfLog<M(!new)>(files: Files, log: seq<Record>, decode: Decoder<M>, start: Time,
          end: Time, selector: Selector<M>)
    requires HoldsLog(files, log) && Chronicle(log, decode)
    ensures Matches(files, decode, start, end, selector)
        == Filter(LogEntries(log, decode), Between(start, end, selector))
  {
    FilteredFlat(log, decode, start.day, end.day, Between(start, end, selector));
    forall d ensures LogDays(files, decode)(d) == RecordDays(log, decode)(d) {
      LinesRead(files, log, d);
    }
    FlatSame(RecordDays(log, decode), LogDays(files, decode), start.day, end.day);
  }

  // ---- Stores

  /** The stamps that are logged do not go back. */
  predicate StampsInOrder(sent: seq<Sent>) {
    forall i, j :: 0 <= i <= j < |sent| ==> !Before(TruncateSecond(sent[j].time), TruncateSecond(sent[i].time))
  }

  /** The store holds these messages for the entity, in order of their stamps. */
  ghost predicate HoldsSent(store: FsMessageStore, sent: seq<Sent>, network: Network, entity: string)
    reads store
  {
    && store.Valid() && store.LogIn(LogDir(network, entity)) == RecordsOf(sent) && StampsInOrder(sent)
    && forall i :: 0 <= i < |sent| ==> Writable(sent[i])
  }

  lemma {:induction false} WrittenReadsBack(s: Sent, entity: string, ownNick: string, events: bool)
    requires Writable(s)
    ensures Plain(RecordOf(s), ReadAs(ownNick, entity, events))
    ensures EntryOf(RecordOf(s), ReadAs(ownNick, entity, events)) == KeptOf(s, entity, ownNick, events)
  {
    RoundTrip(s.msg, s.time, entity, ownNick, events);
    LineHasNoBreaks(s.msg, s.time);
  }

  /** A store that holds such messages has a log of the kind above, of exactly what it keeps of them. */
  lemma {:induction false} SentIsChronicle(sent: seq<Sent>, entity: string, ownNick: string, events: bool)
    requires StampsInOrder(sent) && forall i :: 0 <= i < |sent| ==> Writable(sent[i])
    ensures Chronicle(RecordsOf(sent), ReadAs(ownNick, entity, events))
    ensures LogEntries(RecordsOf(sent), ReadAs(ownNick, entity, events)) == Concat(Kept(sent, entity, ownNick, events))
  {
    var log, decode := RecordsOf(sent), ReadAs(ownNick, entity, events);
    forall i | 0 <= i < |log|
      ensures Plain(log[i], decode) && EntryOf(log[i], decode) == KeptOf(sent[i], entity, ownNick, events)
    {
      WrittenReadsBack(sent[i], entity, ownNick, events);
    }
    forall i, j | 0 <= i < j < |log| ensures NotBefore(log[j], log[i], decode) {
      KeptNotBefore(log[j], log[i], decode, sent[j], sent[i], entity, ownNick, events);
    }
    LogEntriesConcat(log, Kept(sent, entity, ownNick, events), decode);
  }

  lemma {:induction false} KeptNotBefore(b: Record, a: Record, decode: Decoder<Message>, t: Sent, s: Sent,
          entity: string, ownNick: string, events: bool)
    requires EntryOf(a, decode) == KeptOf(s, entity, ownNick, events)
    requires EntryOf(b, decode) == KeptOf(t, entity, ownNick, events)
    requires !Before(TruncateSecond(t.time), TruncateSecond(s.time))
    ensures NotBefore(b, a, decode)
  {
    var d, e := decode(a.line, a.day), decode(b.line, b.day);
    if d.Entry? && e.Entry? {
      assert EntryOf(a, decode)[0].time == d.time && EntryOf(b, decode)[0].time == e.time;
    }
  }

  /** `LoadBeforeTime` returns the newest messages strictly between the bounds, as the log keeps them, with none missing
      in between; they are exactly the last `limit` of them if and only if it does not meet 100 days without one. */
  lemma {:induction false} HistoryBefore(store: FsMessageStore, sent: seq<Sent>, network: Network, entity: string,
          ownNick: string, events: bool, start: Time, end: Time, limit: nat)
    requires HoldsSent(store, sent, network, entity)
    ensures var files, decode := store.FilesIn(LogDir(network, entity)), ReadAs(ownNick, entity, events);
            var r := BeforeTime(files, decode, start, end, limit, All);
            var matches := Filter(Concat(Kept(sent, entity, ownNick, events)), Between(end, start, All));
            && r.Some? && |r.value| <= limit && r.value == LastN(matches, |r.value|)
            && (r.value == LastN(matches, limit)
                <==> !GapBack(MatchDays(files, decode, end, start, All), end.day, start.day, limit))
  {
    var files, decode := store.FilesIn(LogDir(network, entity)), ReadAs(ownNick, entity, events);
    assert HoldsLog(files, RecordsOf(sent));
    SentIsChronicle(sent, entity, ownNick, events);
    ChronicleIsOrderly(files, RecordsOf(sent), decode);
    MatchesOfLog(files, RecordsOf(sent), decode, end, start, All);
    BeforeTimeExact(files, decode, start, end, limit, All);
  }

  /** `LoadAfterTime` returns the oldest messages strictly between the bounds that are not stamped at midnight of a
      later day, with none of those missing in between; they are the first `limit` messages strictly between the bounds
      if and only if it does not meet 100 days without one and none of those is stamped so. */
  lemma {:induction false} HistoryAfter(store: FsMessageStore, sent: seq<Sent>, network: Network, entity: string,
          ownNick: string, events: bool, start: Time, end: Time, limit: nat)
    requires HoldsSent(store, sent, network, entity)
    ensures var files, decode := store.FilesIn(LogDir(network, entity)), ReadAs(ownNick, entity, events);
            var r := AfterTime(files, decode, start, end, limit, All);
            var matches := Filter(Concat(Kept(sent, entity, ownNick, events)), Between(start, end, All));
            && r.Some? && |r.value| <= limit && r.value == FirstN(Filter(matches, NotLateMidnight(start)), |r.value|)
            && (r.value == FirstN(matches, limit)
                <==> && !ForwardGap(files, decode, start, end, limit, All)
                     && forall i :: 0 <= i < |matches| && i < limit ==> !LateMidnight(matches[i], start))
  {
    var files, decode := store.FilesIn(LogDir(network, entity)), ReadAs(ownNick, entity, events);
    assert HoldsLog(files, RecordsOf(sent));
    SentIsChronicle(sent, entity, ownNick, events);
    ChronicleIsOrderly(files, RecordsOf(sent), decode);
    MatchesOfLog(files, RecordsOf(sent), decode, start, end, All);
    AfterTimeExact(files, decode, start, end, limit, All);
    AfterTimeComplete(files, decode, start, end, limit, All);
  }

  // ---- Stores that hold one message

  lemma {:induction false} OneKept(s: Sent, entity: string, ownNick: string, events: bool)
    requires !IsEvent(s.msg) || events
    ensures Concat(Kept([s], entity, ownNick, events)) == KeptOf(s, entity, ownNick, events)
    ensures |KeptOf(s, entity, ownNick, events)| == 1
  {
    var parts := Kept([s], entity, ownNick, events);
    assert parts[..0] == [] && parts[0] == KeptOf(s, entity, ownNick, events);
  }

  /** A message stamped at midnight is not found by a query that starts on a day before. */
  lemma {:induction false} MidnightIsLost(store: FsMessageStore, s: Sent, network: Network, entity: string,
          ownNick: string, events: bool, start: Time, end: Time, limit: nat)
    requires HoldsSent(store, [s], network, entity) && (!IsEvent(s.msg) || events)
    requires s.time.nano == 0 && start.day < s.time.day && Before(s.time, end)
    ensures var files, decode := store.FilesIn(LogDir(network, entity)), ReadAs(ownNick, entity, events);
            && Filter(Concat(Kept([s], entity, ownNick, events)), Between(start, end, All))
            == KeptOf(s, entity, ownNick, events)
            && AfterTime(files, decode, start, end, limit, All) == Some([])
  {
    var e := KeptOf(s, entity, ownNick, events);
    OneKept(s, entity, ownNick, events);
    assert TruncateSecond(s.time) == s.time;
    FilterAll(e, Between(start, end, All));
    FilterNone(e, NotLateMidnight(start));
    HistoryAfter(store, [s], network, entity, ownNick, events, start, end, limit);
  }

  lemma {:induction false} FlatOne<T>(days: Days<T>, day: int, x: seq<T>, lo: int, hi: int)
    requires forall d :: days(d) == if d == day then Some(x) else Some([])
    ensures Readable(days, lo, hi) && Flat(days, lo, hi) == if lo <= day <= hi then x else []
    decreases hi - lo
  {
    if lo <= hi {
      FlatOne(days, day, x, lo, hi - 1);
    }
  }

  /** With one day that has items, a walk back meets a gap exactly when it starts 100 days later or more. */
  lemma {:induction false} OneGap<T>(days: Days<T>, day: int, x: seq<T>, lo: int, hi: int, limit: nat)
    requires (forall d :: days(d) == if d == day then Some(x) else Some([])) && x != [] && lo <= day <= hi && limit > 0
    ensures Readable(days, lo, hi) && (GapBack(days, lo, hi, limit) <==> day + MAX_TRIES <= hi)
  {
    FlatOne(days, day, x, lo, hi);
    if day + MAX_TRIES <= hi {
      FlatOne(days, day, x, lo, day);
      FlatOne(days, day, x, day + 1 + MAX_TRIES, hi);
      assert EmptyRun(days, day + 1, MAX_TRIES);
    }
    if GapBack(days, lo, hi, limit) {
      var first :| EmptyRun(days, first, MAX_TRIES) && lo <= first && first + MAX_TRIES <= hi + 1
        && |Flat(days, first + MAX_TRIES, hi)| < limit && Flat(days, lo, first - 1) != [];
      FlatOne(days, day, x, lo, first - 1);
    }
  }

  /** A message between the bounds is found exactly when the query starts less than 100 days after it. */
  lemma {:induction false} GapHides(store: FsMessageStore, s: Sent, network: Network, entity: string, ownNick: string,
          events: bool, start: Time, end: Time, limit: nat)
    requires HoldsSent(store, [s], network, entity) && (!IsEvent(s.msg) || events) && limit > 0
    requires Before(end, TruncateSecond(s.time)) && Before(TruncateSecond(s.time), start)
    ensures var files, decode := store.FilesIn(LogDir(network, entity)), ReadAs(ownNick, entity, events);
            BeforeTime(files, decode, start, end, limit, All) == Some(KeptOf(s, entity, ownNick, events))
            <==> start.day < s.time.day + MAX_TRIES
  {
    var files, decode := store.FilesIn(LogDir(network, entity)), ReadAs(ownNick, entity, events);
    var e := KeptOf(s, entity, ownNick, events);
    OneKept(s, entity, ownNick, events);
    FilterAll(e, Between(end, start, All));
    HistoryBefore(store, [s], network, entity, ownNick, events, start, end, limit);
    var days := MatchDays(files, decode, end, start, All);
    forall d ensures days(d) == if d == s.time.day then Some(e) else Some([]) {
      OneDayMatches(store, s, network, entity, ownNick, events, start, end, d);
    }
    OneGap(days, s.time.day, e, end.day, start.day, limit);
  }

  lemma {:induction false} OneDayMatches(store: FsMessageStore, s: Sent, network: Network, entity: string,
          ownNick: string, events: bool, start: Time, end: Time, day: int)
    requires HoldsSent(store, [s], network, entity) && (!IsEvent(s.msg) || events)
    requires Before(end, TruncateSecond(s.time)) && Before(TruncateSecond(s.time), start)
    ensures var files, decode := store.FilesIn(LogDir(network, entity)), ReadAs(ownNick, entity, events);
            MatchDays(files, decode, end, start, All)(day)
            == Some(if day == s.time.day then KeptOf(s, entity, ownNick, events) else [])
  {
    var files, decode := store.FilesIn(LogDir(network, entity)), ReadAs(ownNick, entity, events);
    assert HoldsLog(files, RecordsOf([s])) && RecordsOf([s]) == [RecordOf(s)] && [s][0] == s;
    WrittenReadsBack(s, entity, ownNick, events);
    OneRecordDay(files, RecordOf(s), decode, day);
    FilterAll(DayEntries(files, decode, day), Between(end, start, All));
  }

  lemma {:induction false} OneRecordDay<M>(files: Files, r: Record, decode: Decoder<M>, day: int)
    requires HoldsLog(files, [r]) && NoBreaks(r.line)
    ensures DayEntries(files, decode, day) == if day == r.day then EntryOf(r, decode) else []
  {
    LinesRead(files, [r], day);
    RecordDaysAppend([], r, decode, day);
    assert RecordDays([], decode)(day) == Some([]) && [] + [r] == [r];
  }
}
