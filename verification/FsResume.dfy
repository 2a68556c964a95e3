/** Message IDs of the filesystem store: resuming from one gives every later message exactly once. */
module FsResume {
  import opened Seqs
  import opened Text
  import opened Clock
  import opened DayWalk
  import opened LogFile
  import opened FsQueries

  /** One line appended to a log directory. */
  datatype Record = Record(line: string, day: int)

  /** The bytes of a day's file after these appends. */
  function Bytes(log: seq<Record>, day: int): string {
    if log == [] then ""
    else if log[0].day == day then log[0].line + "\n" + Bytes(log[1..], day)
    else Bytes(log[1..], day)
  }

  /** The lines of a day's file after these appends. */
  function Lines(log: seq<Record>, day: int): seq<string> {
    if log == [] then []
    else if log[0].day == day then [log[0].line] + Lines(log[1..], day)
    else Lines(log[1..], day)
  }

  /** The files hold exactly what has been appended; a day without appends has no file. */
  ghost predicate HoldsLog(files: Files, log: seq<Record>) {
    forall day :: FileOf(files, day) == if Bytes(log, day) == "" then None else Some(Bytes(log, day))
  }

  predicate NoBreaks(s: string) {
    '\n' !in s && '\r' !in s
  }

  // ---- Bytes and lines

  lemma {:induction false} BytesConcat(a: seq<Record>, b: seq<Record>, day: int)
    ensures Bytes(a + b, day) == Bytes(a, day) + Bytes(b, day)
  {
    if a == [] {
      assert a + b == b;
    } else {
      assert (a + b)[1..] == a[1..] + b;
      BytesConcat(a[1..], b, day);
    }
  }

  lemma {:induction false} LinesConcat(a: seq<Record>, b: seq<Record>, day: int)
    ensures Lines(a + b, day) == Lines(a, day) + Lines(b, day)
  {
    if a == [] {
      assert a + b == b;
    } else {
      assert (a + b)[1..] == a[1..] + b;
      LinesConcat(a[1..], b, day);
    }
  }

  lemma {:induction false} TokensStep(line: string, rest: string)
    requires NoBreaks(line)
    ensures Tokens(line + "\n" + rest) == [line] + Tokens(rest)
  {
    var s := line + "\n" + rest;
    FindFirst(line, "\n", rest);
    assert s[..|line|] == line && s[|line| + 1..] == rest;
    assert line == "" || line[|line| - 1] in line;
  }

  /** Reading back a file gives the lines that were appended to it. */
  lemma {:induction false} TokensOfBytes(log: seq<Record>, day: int)
    requires forall i :: 0 <= i < |log| ==> NoBreaks(log[i].line)
    ensures Tokens(Bytes(log, day)) == Lines(log, day)
  {
    if log != [] {
      TokensOfBytes(log[1..], day);
      if log[0].day == day {
        TokensStep(log[0].line, Bytes(log[1..], day));
      }
    }
  }

  /** Seeking to a record's offset and dropping one line skips exactly that record. */
  lemma {:induction false} SkipsOne(before: seq<Record>, r: Record, after: seq<Record>)
    requires NoBreaks(r.line) && forall i :: 0 <= i < |after| ==> NoBreaks(after[i].line)
    ensures TokensFrom(Bytes(before + [r] + after, r.day), |Bytes(before, r.day)|) == Lines(after, r.day)
  {
    var head, tail := Bytes(before, r.day), Bytes(after, r.day);
    var all := Bytes(before + [r] + after, r.day);
    assert before + [r] + after == before + ([r] + after);
    BytesConcat(before, [r] + after, r.day);
    assert ([r] + after)[1..] == after;
    assert all == head + (r.line + "\n" + tail);
    assert all[|head|..] == r.line + "\n" + tail;
    TokensStep(r.line, tail);
    TokensOfBytes(after, r.day);
  }

  lemma {:induction false} BytesEndInNewline(log: seq<Record>, day: int)
    ensures var b := Bytes(log, day); b == "" || b[|b| - 1] == '\n'
  {
    if log != [] {
      BytesEndInNewline(log[1..], day);
    }
  }

  /** Seeking to the last byte of the file, its final newline, skips nothing that is appended later. */
  lemma {:induction false} SkipsNone(before: seq<Record>, after: seq<Record>, day: int)
    requires forall i :: 0 <= i < |after| ==> NoBreaks(after[i].line)
    requires Bytes(before, day) != ""
    ensures TokensFrom(Bytes(before + after, day), |Bytes(before, day)| - 1) == Lines(after, day)
  {
    var head, tail := Bytes(before, day), Bytes(after, day);
    var all := Bytes(before + after, day);
    BytesConcat(before, after, day);
    BytesEndInNewline(before, day);
    assert all[|head| - 1..] == "" + "\n" + tail;
    TokensStep("", tail);
    TokensOfBytes(after, day);
  }

  // ---- Messages of a log

  function EntryOf<M>(r: Record, decode: Decoder<M>): seq<Stamped<M>> {
    var d := decode(r.line, r.day);
    if d.Entry? then [Stamped(d.msg, d.time)] else []
  }

  /** The messages of a log, in the order they were appended. */
  function LogEntries<M>(log: seq<Record>, decode: Decoder<M>): seq<Stamped<M>> {
    if log == [] then [] else LogEntries(log[..|log| - 1], decode) + EntryOf(log[|log| - 1], decode)
  }

  function RecordDays<M>(log: seq<Record>, decode: Decoder<M>): Days<Stamped<M>> {
    day => Some(Entries(Lines(log, day), decode, day))
  }

  predicate DaysInOrder(log: seq<Record>) {
    forall i, j :: 0 <= i <= j < |log| ==> log[i].day <= log[j].day
  }

  /** A line that reads back without error, at a time of its own day after the zero time and before `now`. */
  predicate Sound<M>(r: Record, decode: Decoder<M>, now: Time) {
    var d := decode(r.line, r.day);
    && NoBreaks(r.line)
    && r.day <= now.day
    && !d.Malformed?
    && (d.Entry? ==>
        Before(ZERO, d.time) && Before(d.time, now) && d.time.day == r.day && d.time.nano <= NANOS_PER_DAY - NANOS)
  }

  lemma {:induction false} EntriesConcat<M>(a: seq<string>, b: seq<string>, decode: Decoder<M>, day: int)
    ensures Entries(a + b, decode, day) == Entries(a, decode, day) + Entries(b, decode, day)
  {
    if a == [] {
      assert a + b == b;
    } else {
      var ab := a + b;
      assert ab[1..] == a[1..] + b && ab[0] == a[0];
      EntriesConcat(a[1..], b, decode, day);
      var head := EntryOf(Record(a[0], day), decode);
      assert Entries(ab, decode, day) == head + Entries(ab[1..], decode, day);
      assert Entries(a, decode, day) == head + Entries(a[1..], decode, day);
    }
  }

  /** Appending on a day after which nothing has been logged appends to the flat list. */
  lemma {:induction false} FlatExtend<T>(a: Days<T>, b: Days<T>, lo: int, hi: int, day: int, x: seq<T>)
    requires Readable(a, lo, hi) && Readable(b, lo, hi) && lo <= day <= hi
    requires b(day).value == a(day).value + x
    requires forall d :: lo <= d <= hi && d != day ==> b(d) == a(d)
    requires forall d :: day < d <= hi ==> a(d) == Some([])
    ensures Flat(b, lo, hi) == Flat(a, lo, hi) + x
    decreases hi - day
  {
    if day < hi {
      FlatExtend(a, b, lo, hi - 1, day, x);
    } else {
      FlatSame(a, b, lo, hi - 1);
      assert Flat(a, lo, hi - 1) + (a(hi).value + x) == Flat(a, lo, hi - 1) + a(hi).value + x;
    }
  }

  lemma {:induction false} FlatSame<T>(a: Days<T>, b: Days<T>, lo: int, hi: int)
    requires Readable(a, lo, hi)
    requires forall d :: lo <= d <= hi ==> b(d) == a(d)
    ensures Readable(b, lo, hi) && Flat(b, lo, hi) == Flat(a, lo, hi)
    decreases hi - lo
  {
    if lo <= hi {
      FlatSame(a, b, lo, hi - 1);
    }
  }

  lemma {:induction false} NoLinesAfter(log: seq<Record>, day: int)
    requires forall i :: 0 <= i < |log| ==> log[i].day < day
    ensures Lines(log, day) == [] && Bytes(log, day) == ""
  {
    if log != [] {
      NoLinesAfter(log[1..], day);
    }
  }

  lemma {:induction false} RecordDaysAppend<M>(log: seq<Record>, r: Record, decode: Decoder<M>, day: int)
    ensures var a, b := RecordDays(log, decode)(day), RecordDays(log + [r], decode)(day);
            if day == r.day then b.value == a.value + EntryOf(r, decode) else b == a
  {
    LinesConcat(log, [r], day);
    EntriesConcat(Lines(log, day), Lines([r], day), decode, day);
    if day == r.day {
      assert Lines([r], day) == [r.line] + Lines([], day) == [r.line];
      assert Entries([r.line], decode, day) == EntryOf(r, decode) + Entries([], decode, day);
    } else {
      assert Lines([r], day) == Lines([], day) == [];
      assert Lines(log, day) + [] == Lines(log, day);
    }
  }

  /** When days do not go back, the days one after the other give the messages in the order they were appended. */
  lemma {:induction false} FlatIsLog<M>(log: seq<Record>, decode: Decoder<M>, lo: int, hi: int)
    requires DaysInOrder(log)
    requires forall i :: 0 <= i < |log| ==> lo <= log[i].day <= hi
    ensures Readable(RecordDays(log, decode), lo, hi)
        && Flat(RecordDays(log, decode), lo, hi) == LogEntries(log, decode)
  {
    if log == [] {
      FlatEmpty(RecordDays(log, decode), lo, hi);
    } else {
      var init, r := log[..|log| - 1], log[|log| - 1];
      assert log == init + [r];
      FlatIsLog(init, decode, lo, hi);
      var a, b := RecordDays(init, decode), RecordDays(log, decode);
      forall d | lo <= d <= hi
        ensures if d == r.day then b(d).value == a(d).value + EntryOf(r, decode) else b(d) == a(d)
      {
        RecordDaysAppend(init, r, decode, d);
      }
      forall d | r.day < d <= hi ensures a(d) == Some([]) {
        NoLinesAfter(init, d);
      }
      FlatExtend(a, b, lo, hi, r.day, EntryOf(r, decode));
    }
  }

  lemma {:induction false} FlatEmpty<T>(days: Days<T>, lo: int, hi: int)
    requires forall d :: lo <= d <= hi ==> days(d) == Some([])
    ensures Readable(days, lo, hi) && Flat(days, lo, hi) == []
    decreases hi - lo
  {
    if lo <= hi {
      FlatEmpty(days, lo, hi - 1);
    }
  }

  // ---- Resuming

  /** After the zero time and before the point from which the day is read back. */
  predicate AllWithin<M>(entries: seq<Stamped<M>>, now: Time, day: int) {
    forall i :: 0 <= i < |entries| ==> Before(ZERO, entries[i].time) && Before(entries[i].time, RefBack(now, day))
  }

  lemma {:induction false} EntriesAreBefore<M>(log: seq<Record>, decode: Decoder<M>, day: int, now: Time)
    requires forall i :: 0 <= i < |log| ==> Sound(log[i], decode, now)
    ensures Clean(Lines(log, day), decode, day)
    ensures AllWithin(Entries(Lines(log, day), decode, day), now, day)
  {
    if log != [] {
      var rest := Lines(log[1..], day);
      EntriesAreBefore(log[1..], decode, day, now);
      assert Sound(log[0], decode, now);
      if log[0].day == day {
        assert ([log[0].line] + rest)[1..] == rest;
        assert AllWithin(EntryOf(log[0], decode), now, day);
        assert Entries(Lines(log, day), decode, day) == EntryOf(log[0], decode) + Entries(rest, decode, day);
      }
    }
  }

  lemma {:induction false} AllBeforeCuts<M>(entries: seq<Stamped<M>>, ref: Time)
    requires forall i :: 0 <= i < |entries| ==> Before(entries[i].time, ref)
    ensures CutAt(entries, ref)
  {
  }

  /** Reading lines that are all before `now` keeps all their messages. */
  lemma {:induction false} ReadsAll<M>(log: seq<Record>, decode: Decoder<M>, day: int, now: Time)
    requires forall i :: 0 <= i < |log| ==> Sound(log[i], decode, now)
    ensures ScanBefore(Lines(log, day), decode, day, RefBack(now, day), ZERO, All) == RecordDays(log, decode)(day)
  {
    EntriesAreBefore(log, decode, day, now);
    var entries := Entries(Lines(log, day), decode, day);
    AllBeforeCuts(entries, RefBack(now, day));
    ScanBeforeFilters(Lines(log, day), decode, day, RefBack(now, day), ZERO, All);
    FilterAll(entries, Between(ZERO, RefBack(now, day), All));
  }

  /** The tokens of a day's file as `LoadLatestID` reads them are the lines appended after the position. */
  ghost predicate PointsAt(after: seq<Record>, files: Files, pos: MsgPosition) {
    forall day :: pos.day <= day ==> FileTokens(FileOf(files, day), OffsetOn(day, pos)) == Lines(after, day)
  }

  /** The result of `LoadLatestID` for a position, as `LoadLatest` states it. */
  ghost function Latest<M>(files: Files, decode: Decoder<M>, pos: MsgPosition, limit: nat,
          now: Time): Option<seq<Stamped<M>>> {
    CollectBack(DaysSince(files, decode, now, pos), now.day, pos.day, limit, 0, [])
  }

  /** Loading from a position that points in front of `after` gives the last `limit` messages of `after`, in the order
      they were appended, none repeated or lost, if and only if 100 days without one do not come in between. */
  lemma {:induction false} ResumeExact<M>(after: seq<Record>, files: Files, decode: Decoder<M>, pos: MsgPosition,
          limit: nat, now: Time)
    requires PointsAt(after, files, pos) && DaysInOrder(after)
    requires forall i :: 0 <= i < |after| ==> Sound(after[i], decode, now) && pos.day <= after[i].day
    ensures Latest(files, decode, pos, limit, now) == Some(LastN(LogEntries(after, decode), limit))
            <==> !GapBack(RecordDays(after, decode), pos.day, now.day, limit)
  {
    var days, records := DaysSince(files, decode, now, pos), RecordDays(after, decode);
    CollectBackIsWalk(days, now.day, pos.day, limit, 0, []);
    forall d | pos.day <= d <= now.day ensures days(d) == records(d) {
      ReadsAll(after, decode, d, now);
    }
    WalkBackSame(days, records, now.day, pos.day, limit, 0);
    FlatIsLog(after, decode, pos.day, now.day);
    BackExact(records, pos.day, now.day, limit);
  }

  /** The ID `Append` returned points behind its own record. */
  lemma {:induction false} AppendPointsAt(before: seq<Record>, r: Record, after: seq<Record>, files: Files)
    requires HoldsLog(files, before + [r] + after) && DaysInOrder(before + [r] + after)
    requires forall i :: 0 <= i < |after| ==> NoBreaks(after[i].line)
    requires NoBreaks(r.line)
    ensures PointsAt(after, files, MsgPosition(r.day, |Bytes(before, r.day)|))
  {
    var pos := MsgPosition(r.day, |Bytes(before, r.day)|);
    var log := before + [r] + after;
    forall day | pos.day <= day ensures FileTokens(FileOf(files, day), OffsetOn(day, pos)) == Lines(after, day) {
      BytesConcat(before + [r], after, day);
      if day == r.day {
        SkipsOne(before, r, after);
        BytesConcat(before, [r], day);
      } else {
        assert forall i :: 0 <= i < |before + [r]| ==> (before + [r])[i] == log[i];
        assert log[|before|] == r;
        NoLinesAfter(before + [r], day);
        assert Bytes(log, day) == Bytes(after, day);
        TokensOfBytes(after, day);
      }
    }
  }

  /** The ID `LastMsgID` returned at a day not before any record so far points behind all of them. */
  lemma {:induction false} LastPointsAt(before: seq<Record>, after: seq<Record>, files: Files, day: int)
    requires HoldsLog(files, before + after)
    requires forall i :: 0 <= i < |before| ==> before[i].day <= day
    requires forall i :: 0 <= i < |after| ==> NoBreaks(after[i].line)
    ensures PointsAt(after, files, MsgPosition(day, |Bytes(before, day)| - 1))
  {
    var pos := MsgPosition(day, |Bytes(before, day)| - 1);
    forall d | day <= d ensures FileTokens(FileOf(files, d), OffsetOn(d, pos)) == Lines(after, d) {
      BytesConcat(before, after, d);
      if d == day && Bytes(before, day) != "" {
        SkipsNone(before, after, d);
      } else {
        if d > day { NoLinesAfter(before, d); }
        assert Bytes(before + after, d) == Bytes(after, d);
        TokensOfBytes(after, d);
      }
    }
  }

  /** Exactly-once delivery after an ID returned by `Append`. */
  lemma {:induction false} ResumeAfterAppend<M>(log: seq<Record>, k: nat, files: Files, decode: Decoder<M>, limit: nat,
          now: Time)
    requires k < |log| && HoldsLog(files, log) && DaysInOrder(log)
    requires forall i :: 0 <= i < |log| ==> Sound(log[i], decode, now)
    ensures var pos := MsgPosition(log[k].day, |Bytes(log[..k], log[k].day)|);
            Latest(files, decode, pos, limit, now) == Some(LastN(LogEntries(log[k + 1..], decode), limit))
            <==> !GapBack(RecordDays(log[k + 1..], decode), pos.day, now.day, limit)
  {
    var before, r, after := log[..k], log[k], log[k + 1..];
    assert log == before + [r] + after;
    AppendPointsAt(before, r, after, files);
    ResumeExact(after, files, decode, MsgPosition(r.day, |Bytes(before, r.day)|), limit, now);
  }

  /** Exactly-once delivery after an ID returned by `LastMsgID` between the appends of `log[..k]` and `log[k..]`. */
  lemma {:induction false} ResumeAfterLast<M>(log: seq<Record>, k: nat, day: int, files: Files, decode: Decoder<M>,
          limit: nat, now: Time)
    requires k <= |log| && HoldsLog(files, log) && DaysInOrder(log)
    requires forall i :: 0 <= i < |log| ==>
        Sound(log[i], decode, now) && (i < k ==> log[i].day <= day) && (i >= k ==> day <= log[i].day)
    ensures var pos := MsgPosition(day, |Bytes(log[..k], day)| - 1);
            Latest(files, decode, pos, limit, now) == Some(LastN(LogEntries(log[k..], decode), limit))
            <==> !GapBack(RecordDays(log[k..], decode), day, now.day, limit)
  {
    var before, after := log[..k], log[k..];
    assert log == before + after;
    LastPointsAt(before, after, files, day);
    ResumeExact(after, files, decode, MsgPosition(day, |Bytes(before, day)| - 1), limit, now);
  }

  // ---- Logs given by what each record keeps

  /** Every record reads back soundly, as the part given for it. */
  ghost predicate ReadsBack<M>(log: seq<Record>, parts: seq<seq<Stamped<M>>>, decode: Decoder<M>, now: Time) {
    |parts| == |log| && forall i :: 0 <= i < |log| ==> Sound(log[i], decode, now) && EntryOf(log[i], decode) == parts[i]
  }

  lemma {:induction false} LogEntriesConcat<M>(log: seq<Record>, parts: seq<seq<Stamped<M>>>, decode: Decoder<M>)
    requires |parts| == |log| && forall i :: 0 <= i < |log| ==> EntryOf(log[i], decode) == parts[i]
    ensures LogEntries(log, decode) == Concat(parts)
  {
    if log != [] {
      LogEntriesConcat(log[..|log| - 1], parts[..|log| - 1], decode);
    }
  }

  lemma {:induction false} PartsAfterAppend<M>(log: seq<Record>, parts: seq<seq<Stamped<M>>>, k: nat, files: Files,
          decode: Decoder<M>, limit: nat, now: Time)
    requires k < |log| && HoldsLog(files, log) && DaysInOrder(log) && ReadsBack(log, parts, decode, now)
    ensures var pos := MsgPosition(log[k].day, |Bytes(log[..k], log[k].day)|);
            Latest(files, decode, pos, limit, now) == Some(LastN(Concat(parts[k + 1..]), limit))
            <==> !GapBack(RecordDays(log[k + 1..], decode), pos.day, now.day, limit)
  {
    ResumeAfterAppend(log, k, files, decode, limit, now);
    LogEntriesConcat(log[k + 1..], parts[k + 1..], decode);
  }

  lemma {:induction false} PartsAfterLast<M>(log: seq<Record>, parts: seq<seq<Stamped<M>>>, k: nat, day: int,
          files: Files, decode: Decoder<M>, limit: nat, now: Time)
    requires k <= |log| && HoldsLog(files, log) && DaysInOrder(log) && ReadsBack(log, parts, decode, now)
    requires forall i :: 0 <= i < |log| ==> (i < k ==> log[i].day <= day) && (i >= k ==> day <= log[i].day)
    ensures var pos := MsgPosition(day, |Bytes(log[..k], day)| - 1);
            Latest(files, decode, pos, limit, now) == Some(LastN(Concat(parts[k..]), limit))
            <==> !GapBack(RecordDays(log[k..], decode), day, now.day, limit)
  {
    ResumeAfterLast(log, k, day, files, decode, limit, now);
    LogEntriesConcat(log[k..], parts[k..], decode);
  }
}
