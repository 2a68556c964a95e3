/** The filesystem message store: appending log lines, message IDs, and loading from an ID. */
module FsStore {
  import opened Seqs
  import opened Text
  import opened Clock
  import opened ZncLog
  import opened DayWalk
  import opened LogFile
  import opened FsQueries
  import opened FsResume
  import FsTimeQueries

  datatype Network = Network(id: int, name: string)

  /** A message ID; its wire encoding is not modelled. */
  datatype MsgId = MsgId(netId: int, entity: string, pos: MsgPosition)

  datatype Loaded = Messages(messages: seq<Stamped<Message>>) | WrongTarget | ParseError

  /** A log directory, named after the network and the entity. */
  datatype Dir = Dir(network: string, entity: string)

  function EscapeChar(c: char): char {
    if c == '/' || c == '\\' then '-' else c
  }

  function EscapeFilename(unsafe: string): (safe: string)
    ensures '/' !in safe && '\\' !in safe && safe != "." && safe != ".."
  {
    if unsafe == "." then "-"
    else if unsafe == ".." then "--"
    else
      var safe := seq(|unsafe|, i requires 0 <= i < |unsafe| => EscapeChar(unsafe[i]));
      assert |unsafe| == 1 ==> unsafe[0] != '.';
      assert |unsafe| == 2 ==> unsafe[0] != '.' || unsafe[1] != '.';
      safe
  }

  /** Names that need no escaping keep their own directories. */
  lemma {:induction false} EscapeKeepsSafeNames(name: string)
    ensures EscapeFilename(name) == name <==> '/' !in name && '\\' !in name && name != "." && name != ".."
  {
    if '/' !in name && '\\' !in name && name != "." && name != ".." {
      assert forall i :: 0 <= i < |name| ==> name[i] in name && EscapeChar(name[i]) == name[i];
      assert EscapeFilename(name) == name;
    }
  }

  /** The character at `i` becomes a dash, or is one. */
  predicate BecomesDash(name: string, i: nat)
    requires i < |name|
  {
    name[i] in "/\\-" || name == "." || name == ".."
  }

  lemma {:induction false} EscapeAt(name: string)
    ensures |EscapeFilename(name)| == |name|
    ensures forall i :: 0 <= i < |name| ==> EscapeFilename(name)[i] == if BecomesDash(name, i) then '-' else name[i]
  {
  }

  /** Two names share a directory, and with it their logs, exactly when they have the same length and differ only where
      both have something that becomes a dash. */
  lemma {:induction false} EscapeCollides(a: string, b: string)
    ensures EscapeFilename(a) == EscapeFilename(b)
            <==> |a| == |b| && forall i :: 0 <= i < |a| ==>
                if BecomesDash(a, i) then BecomesDash(b, i) else !BecomesDash(b, i) && a[i] == b[i]
  {
    EscapeAt(a);
    EscapeAt(b);
    if EscapeFilename(a) == EscapeFilename(b) {
      assert forall i :: 0 <= i < |a| ==> EscapeFilename(a)[i] == EscapeFilename(b)[i];
    }
  }

  /** Different names can. */
  lemma {:induction false} EscapeCollision()
    ensures EscapeFilename("a/b") == EscapeFilename("a-b")
  {
    EscapeCollides("a/b", "a-b");
  }

  function LogDir(network: Network, entity: string): Dir {
    Dir(EscapeFilename(network.name), EscapeFilename(entity))
  }

  function ReadAs(ownNick: string, entity: string, events: bool): Decoder<Message> {
    (line, day) => UnmarshalLine(line, ownNick, entity, day, events)
  }

  /** The ID is for this network and entity. */
  predicate For(id: MsgId, network: Network, entity: string) {
    id.netId == network.id && id.entity == entity
  }

  /** The ID is the one of record `k`: the record's day and where it begins. */
  predicate AppendedAs(id: MsgId, log: seq<Record>, k: nat) {
    k < |log| && id.pos == MsgPosition(log[k].day, |Bytes(log[..k], log[k].day)|)
  }

  /** The ID is the last one on `day` when the log had `k` records. */
  predicate LastOn(id: MsgId, log: seq<Record>, k: nat, day: int) {
    k <= |log| && id.pos == MsgPosition(day, |Bytes(log[..k], day)| - 1)
  }

  /** Later records do not change which record an ID stands for. */
  lemma {:induction false} IdsStay(id: MsgId, log: seq<Record>, more: seq<Record>, k: nat, day: int)
    ensures AppendedAs(id, log, k) ==> AppendedAs(id, log + more, k)
    ensures LastOn(id, log, k, day) ==> LastOn(id, log + more, k, day)
  {
    if k <= |log| {
      assert (log + more)[..k] == log[..k];
    }
  }

  /** What `LoadLatestID` returns, given the files of the directory. */
  ghost function LoadedFrom(files: Files, id: Option<MsgId>, network: Network, entity: string, ownNick: string,
          events: bool, limit: nat, now: Time): Loaded {
    var pos := if id.Some? then id.value.pos else MsgPosition(ZERO.day, 0);
    var latest := Latest(files, ReadAs(ownNick, entity, events), pos, limit, now);
    if id.Some? && !For(id.value, network, entity) then WrongTarget
    else if latest.None? then ParseError else Messages(latest.value)
  }

  lemma {:induction false} LoadedIs(files: Files, id: MsgId, network: Network, entity: string, ownNick: string,
          events: bool, limit: nat, now: Time, msgs: seq<Stamped<Message>>)
    requires For(id, network, entity)
    ensures LoadedFrom(files, Some(id), network, entity, ownNick, events, limit, now) == Messages(msgs)
            <==> Latest(files, ReadAs(ownNick, entity, events), id.pos, limit, now) == Some(msgs)
  {
  }

  class FsMessageStore {
    var disk: map<Dir, Files>
    ghost var logs: map<Dir, seq<Record>>

    function FilesIn(dir: Dir): Files
      reads this
    {
      if dir in disk then disk[dir] else map[]
    }

    ghost function LogIn(dir: Dir): seq<Record>
      reads this
    {
      if dir in logs then logs[dir] else []
    }

    /** The files of every directory hold exactly what has been appended there. */
    ghost predicate Valid()
      reads this
    {
      forall dir :: HoldsLog(FilesIn(dir), LogIn(dir))
    }

    constructor ()
      ensures Valid() && logs == map[]
    {
      disk, logs := map[], map[];
    }

    method LastMsgID(network: Network, entity: string, t: Time) returns (id: MsgId)
      requires Valid()
      ensures For(id, network, entity) && LastOn(id, LogIn(LogDir(network, entity)), |LogIn(LogDir(network, entity))|,
          t.day)
      ensures id == MsgId(network.id, entity, MsgPosition(t.day, |Bytes(LogIn(LogDir(network, entity)), t.day)| - 1))
    {
      var dir := LogDir(network, entity);
      ghost var log := LogIn(dir);
      assert log[..|log|] == log;
      var file := FileOf(FilesIn(dir), t.day);
      assert HoldsLog(FilesIn(dir), LogIn(dir));
      if file.None? {
        return MsgId(network.id, entity, MsgPosition(t.day, -1));
      }
      id := MsgId(network.id, entity, MsgPosition(t.day, |file.value| - 1));
    }

    method Append(network: Network, entity: string, msg: Message, t: Time) returns (id: Option<MsgId>)
      requires Valid() && WellFormed(msg)
      modifies this
      ensures Valid()
      ensures id.Some? <==> IsLogged(msg)
      ensures id.None? ==> disk == old(disk) && logs == old(logs)
      ensures id.Some? ==>
                var dir := LogDir(network, entity);
                && For(id.value, network, entity) && AppendedAs(id.value, LogIn(dir), |old(LogIn(dir))|)
                && id.value == MsgId(network.id, entity, MsgPosition(t.day, |Bytes(old(LogIn(dir)), t.day)|))
                && logs == old(logs)[dir := old(LogIn(dir)) + [Record(MarshalLine(msg, t), t.day)]]
    {
      MarshalsLogged(msg, t);
      var s := MarshalLine(msg, t);
      if s == "" {
        return None;
      }
      var dir := LogDir(network, entity);
      var files := FilesIn(dir);
      ghost var log := LogIn(dir);
      assert HoldsLog(files, log);
      var bytes := if t.day in files then files[t.day] else "";
      assert bytes == Bytes(log, t.day) by { assert FileOf(files, t.day) == if Bytes(log, t.day) == "" then None
          else Some(Bytes(log, t.day)); }
      id := Some(MsgId(network.id, entity, MsgPosition(t.day, |bytes|)));
      AppendHolds(files, log, Record(s, t.day));
      disk := disk[dir := files[t.day := bytes + s + "\n"]];
      logs := logs[dir := log + [Record(s, t.day)]];
      assert LogIn(dir)[..|log|] == log;
      forall d ensures HoldsLog(FilesIn(d), LogIn(d)) {
        assert d != dir ==> old(HoldsLog(FilesIn(d), LogIn(d)));
      }
    }

    /** Without an ID, loading starts at the zero time. */
    method LoadLatestID(id: Option<MsgId>, network: Network, entity: string, ownNick: string, events: bool, limit: nat,
            now: Time) returns (r: Loaded)
      ensures r == LoadedFrom(FilesIn(LogDir(network, entity)), id, network, entity, ownNick, events, limit, now)
    {
      var pos := MsgPosition(ZERO.day, 0);
      if id.Some? {
        if id.value.netId != network.id || id.value.entity != entity {
          return WrongTarget;
        }
        pos := id.value.pos;
      }
      var latest := LoadLatest(FilesIn(LogDir(network, entity)), ReadAs(ownNick, entity, events), pos, limit, now);
      if latest.None? {
        return ParseError;
      }
      r := Messages(latest.value);
    }

    /** The newest messages strictly between two times; no start stands for now. */
    method LoadBeforeTime(start: Time, end: Time, network: Network, entity: string, ownNick: string, events: bool,
            limit: nat, now: Time) returns (r: Option<seq<Stamped<Message>>>)
      ensures var files, decode := FilesIn(LogDir(network, entity)), ReadAs(ownNick, entity, events);
              r == FsTimeQueries.BeforeTime(files, decode, OrNow(start, now), end, limit, All)
    {
      var files, decode := FilesIn(LogDir(network, entity)), ReadAs(ownNick, entity, events);
      r := GetBeforeTime(files, decode, start, end, limit, now, All);
    }

    /** The oldest messages strictly between two times; no end stands for now. */
    method LoadAfterTime(start: Time, end: Time, network: Network, entity: string, ownNick: string, events: bool,
            limit: nat, now: Time) returns (r: Option<seq<Stamped<Message>>>)
      ensures var files, decode := FilesIn(LogDir(network, entity)), ReadAs(ownNick, entity, events);
              r == FsTimeQueries.AfterTime(files, decode, start, OrNow(end, now), limit, All)
    {
      var files, decode := FilesIn(LogDir(network, entity)), ReadAs(ownNick, entity, events);
      r := GetAfterTime(files, decode, start, end, limit, now, All);
    }
  }

  /** Without an ID the position is in front of everything after the zero time. */
  lemma {:induction false} ZeroPointsAt(log: seq<Record>, files: Files)
    requires HoldsLog(files, log) && forall i :: 0 <= i < |log| ==> NoBreaks(log[i].line) && log[i].day > ZERO.day
    ensures PointsAt(log, files, MsgPosition(ZERO.day, 0))
  {
    var pos := MsgPosition(ZERO.day, 0);
    forall day | pos.day <= day ensures FileTokens(FileOf(files, day), OffsetOn(day, pos)) == Lines(log, day) {
      TokensOfBytes(log, day);
      if day == ZERO.day {
        NoLinesOn(log, day);
      }
    }
  }

  lemma {:induction false} NoLinesOn(log: seq<Record>, day: int)
    requires forall i :: 0 <= i < |log| ==> log[i].day != day
    ensures Lines(log, day) == [] && Bytes(log, day) == ""
  {
    if log != [] {
      NoLinesOn(log[1..], day);
    }
  }

  lemma {:induction false} AppendHolds(files: Files, log: seq<Record>, r: Record)
    requires HoldsLog(files, log)
    ensures HoldsLog(files[r.day := Bytes(log, r.day) + r.line + "\n"], log + [r])
  {
    forall day ensures Bytes(log + [r], day) == if day == r.day then Bytes(log, day) + r.line + "\n"
        else Bytes(log, day) {
      BytesConcat(log, [r], day);
      assert Bytes([r], day) == if day == r.day then r.line + "\n" + Bytes([], day) else Bytes([], day);
      assert Bytes(log, day) + (r.line + "\n") == Bytes(log, day) + r.line + "\n";
    }
  }

  // ---- Exactly-once resume for IRC messages

  type WellFormedMessage = msg: Message | WellFormed(msg) witness Message(Prefix("", "", ""), "", [])

  datatype Sent = Sent(msg: WellFormedMessage, time: Time)

  /** A message the store can log: see `Loggable`; no line breaks. */
  predicate Writable(s: Sent) {
    Loggable(s.msg) && FieldsHaveNoBreaks(s.msg)
  }

  /** The same, not stamped at or after `now`. */
  predicate Storable(s: Sent, now: Time) {
    && Writable(s)
    && Before(ZERO, TruncateSecond(s.time)) && Before(TruncateSecond(s.time), now)
  }

  predicate FieldsHaveNoBreaks(msg: Message) {
    && NoBreaks(msg.prefix.name) && NoBreaks(msg.prefix.user) && NoBreaks(msg.prefix.host)
    && forall i :: 0 <= i < |msg.params| ==> NoBreaks(msg.params[i])
  }

  function RecordOf(s: Sent): Record {
    Record(MarshalLine(s.msg, s.time), s.time.day)
  }

  function RecordsOf(sent: seq<Sent>): (log: seq<Record>)
    ensures |log| == |sent| && forall i :: 0 <= i < |sent| ==> log[i] == RecordOf(sent[i])
  {
    seq(|sent|, i requires 0 <= i < |sent| => RecordOf(sent[i]))
  }

  function KeptOf(s: Sent, entity: string, ownNick: string, events: bool): seq<Stamped<Message>> {
    if IsEvent(s.msg) && !events then [] else [Stamped(Project(s.msg, entity, ownNick), TruncateSecond(s.time))]
  }

  /** What the log keeps of each of these messages, for a reader with or without events. */
  function Kept(sent: seq<Sent>, entity: string, ownNick: string, events: bool): (parts: seq<seq<Stamped<Message>>>)
    ensures |parts| == |sent| && forall i :: 0 <= i < |sent| ==> parts[i] == KeptOf(sent[i], entity, ownNick, events)
  {
    seq(|sent|, i requires 0 <= i < |sent| => KeptOf(sent[i], entity, ownNick, events))
  }

  predicate SentInOrder(sent: seq<Sent>) {
    forall i, j :: 0 <= i <= j < |sent| ==> sent[i].time.day <= sent[j].time.day
  }

  lemma {:induction false} RecordReadsBack(s: Sent, entity: string, ownNick: string, events: bool, now: Time)
    requires Storable(s, now)
    ensures Sound(RecordOf(s), ReadAs(ownNick, entity, events), now)
    ensures EntryOf(RecordOf(s), ReadAs(ownNick, entity, events)) == KeptOf(s, entity, ownNick, events)
  {
    RoundTrip(s.msg, s.time, entity, ownNick, events);
    LineHasNoBreaks(s.msg, s.time);
  }

  lemma {:induction false} RecordsReadBack(sent: seq<Sent>, entity: string, ownNick: string, events: bool, now: Time)
    requires forall i :: 0 <= i < |sent| ==> Storable(sent[i], now)
    ensures ReadsBack(RecordsOf(sent), Kept(sent, entity, ownNick, events), ReadAs(ownNick, entity, events), now)
  {
    var log, parts, decode := RecordsOf(sent), Kept(sent, entity, ownNick, events), ReadAs(ownNick, entity, events);
    forall i | 0 <= i < |log| ensures Sound(log[i], decode, now) && EntryOf(log[i], decode) == parts[i] {
      RecordReadsBack(sent[i], entity, ownNick, events, now);
    }
  }

  /** When the store holds these messages, loading from the ID `Append` returned for message `k` gives the last `limit`
      of the later messages, as the log keeps them, exactly once and in order, if and only if no 100 days without a
      message come in between. */
  lemma {:induction false} ExactlyOnceAfterAppend(store: FsMessageStore, sent: seq<Sent>, k: nat, id: MsgId,
          network: Network, entity: string, ownNick: string, events: bool, limit: nat, now: Time)
    requires store.Valid() && store.LogIn(LogDir(network, entity)) == RecordsOf(sent)
    requires For(id, network, entity) && AppendedAs(id, RecordsOf(sent), k) && SentInOrder(sent)
    requires forall i :: 0 <= i < |sent| ==> Storable(sent[i], now)
    ensures var files := store.FilesIn(LogDir(network, entity));
            var later := Messages(LastN(Concat(Kept(sent, entity, ownNick, events)[k + 1..]), limit));
            LoadedFrom(files, Some(id), network, entity, ownNick, events, limit, now) == later
            <==> !GapBack(RecordDays(RecordsOf(sent)[k + 1..], ReadAs(ownNick, entity, events)), sent[k].time.day,
                now.day, limit)
  {
    var files, parts := store.FilesIn(LogDir(network, entity)), Kept(sent, entity, ownNick, events);
    var log, decode := RecordsOf(sent), ReadAs(ownNick, entity, events);
    assert HoldsLog(files, log) && DaysInOrder(log);
    LoadedIs(files, id, network, entity, ownNick, events, limit, now, LastN(Concat(parts[k + 1..]), limit));
    RecordsReadBack(sent, entity, ownNick, events, now);
    ResumesAt(id, log, parts, k, files, decode, limit, now);
  }

  lemma {:induction false} ResumesAt(id: MsgId, log: seq<Record>, parts: seq<seq<Stamped<Message>>>, k: nat,
          files: Files, decode: Decoder<Message>, limit: nat, now: Time)
    requires AppendedAs(id, log, k) && HoldsLog(files, log) && DaysInOrder(log) && ReadsBack(log, parts, decode, now)
    ensures Latest(files, decode, id.pos, limit, now) == Some(LastN(Concat(parts[k + 1..]), limit))
            <==> !GapBack(RecordDays(log[k + 1..], decode), log[k].day, now.day, limit)
  {
    PartsAfterAppend(log, parts, k, files, decode, limit, now);
  }

  /** The same for the ID `LastMsgID` returned on `day`, after the first `k` messages and before the others. */
  lemma {:induction false} ExactlyOnceAfterLast(store: FsMessageStore, sent: seq<Sent>, k: nat, day: int, id: MsgId,
          network: Network, entity: string, ownNick: string, events: bool, limit: nat, now: Time)
    requires store.Valid() && store.LogIn(LogDir(network, entity)) == RecordsOf(sent)
    requires For(id, network, entity) && LastOn(id, RecordsOf(sent), k, day) && SentInOrder(sent)
    requires forall i :: 0 <= i < |sent| ==> Storable(sent[i], now)
    requires forall i :: 0 <= i < |sent| ==> (i < k ==> sent[i].time.day <= day) && (i >= k ==> day <= sent[i].time.day)
    ensures var files := store.FilesIn(LogDir(network, entity));
            var later := Messages(LastN(Concat(Kept(sent, entity, ownNick, events)[k..]), limit));
            LoadedFrom(files, Some(id), network, entity, ownNick, events, limit, now) == later
            <==> !GapBack(RecordDays(RecordsOf(sent)[k..], ReadAs(ownNick, entity, events)), day, now.day, limit)
  {
    var files := store.FilesIn(LogDir(network, entity));
    assert HoldsLog(files, RecordsOf(sent));
    LoadedIs(files, id, network, entity, ownNick, events, limit, now,
        LastN(Concat(Kept(sent, entity, ownNick, events)[k..]), limit));
    RecordsReadBack(sent, entity, ownNick, events, now);
    PartsAfterLast(RecordsOf(sent), Kept(sent, entity, ownNick, events), k, day, files,
        ReadAs(ownNick, entity, events), limit, now);
  }

  /** Without an ID, loading gives the last `limit` messages of all, if and only if no 100 days without one come in
      between. */
  lemma {:induction false} AllWithoutID(store: FsMessageStore, sent: seq<Sent>, network: Network, entity: string,
          ownNick: string, events: bool, limit: nat, now: Time)
    requires store.Valid() && store.LogIn(LogDir(network, entity)) == RecordsOf(sent) && SentInOrder(sent)
    requires forall i :: 0 <= i < |sent| ==> Storable(sent[i], now) && sent[i].time.day > ZERO.day
    ensures var files := store.FilesIn(LogDir(network, entity));
            var all := Messages(LastN(Concat(Kept(sent, entity, ownNick, events)), limit));
            LoadedFrom(files, None, network, entity, ownNick, events, limit, now) == all
            <==> !GapBack(RecordDays(RecordsOf(sent), ReadAs(ownNick, entity, events)), ZERO.day, now.day, limit)
  {
    var files, log := store.FilesIn(LogDir(network, entity)), RecordsOf(sent);
    assert HoldsLog(files, log) && DaysInOrder(log);
    RecordsReadBack(sent, entity, ownNick, events, now);
    PartsWithoutID(log, Kept(sent, entity, ownNick, events), files, ReadAs(ownNick, entity, events), limit, now);
  }

  lemma {:induction false} PartsWithoutID(log: seq<Record>, parts: seq<seq<Stamped<Message>>>, files: Files,
          decode: Decoder<Message>, limit: nat, now: Time)
    requires HoldsLog(files, log) && DaysInOrder(log) && ReadsBack(log, parts, decode, now)
    requires forall i :: 0 <= i < |log| ==> log[i].day > ZERO.day
    ensures Latest(files, decode, MsgPosition(ZERO.day, 0), limit, now) == Some(LastN(Concat(parts), limit))
            <==> !GapBack(RecordDays(log, decode), ZERO.day, now.day, limit)
  {
    assert forall i :: 0 <= i < |log| ==> Sound(log[i], decode, now) && NoBreaks(log[i].line);
    ZeroPointsAt(log, files);
    ResumeExact(log, files, decode, MsgPosition(ZERO.day, 0), limit, now);
    LogEntriesConcat(log, parts, decode);
  }

  // ---- Log lines contain no line breaks

  lemma {:induction false} JoinNoBreaks(parts: seq<string>)
    requires forall i :: 0 <= i < |parts| ==> NoBreaks(parts[i])
    ensures NoBreaks(Join(parts, " "))
  {
    if |parts| > 1 {
      JoinNoBreaks(parts[1..]);
    }
  }

  lemma {:induction false} TrimLeftNoBreaks(s: string, c: char)
    requires NoBreaks(s)
    ensures NoBreaks(TrimLeft(s, c))
  {
    if s != "" && s[0] == c { TrimLeftNoBreaks(s[1..], c); }
  }

  lemma {:induction false} TrimRightNoBreaks(s: string, c: char)
    requires NoBreaks(s)
    ensures NoBreaks(TrimRight(s, c))
  {
    if s != "" && s[|s| - 1] == c { TrimRightNoBreaks(s[..|s| - 1], c); }
  }

  lemma {:induction false} CtcpNoBreaks(text: string)
    requires NoBreaks(text)
    ensures NoBreaks(ParseCtcpText(text).1)
  {
    TrimLeftNoBreaks(text, SOH);
    TrimRightNoBreaks(TrimLeft(text, SOH), SOH);
    var trimmed := TrimRight(TrimLeft(text, SOH), SOH);
    var i := Find(trimmed, " ");
    if i >= 0 {
      assert SplitN(trimmed[i + 1..], " ", 1) == [trimmed[i + 1..]];
      assert SplitN(trimmed, " ", 2)[1] == trimmed[i + 1..];
    }
  }

  lemma {:induction false} CatNoBreaks(a: string, b: string)
    requires NoBreaks(a) && NoBreaks(b)
    ensures NoBreaks(a + b)
  {
  }

  lemma {:induction false} MaskNoBreaks(p: Prefix)
    requires NoBreaks(p.name) && NoBreaks(p.user) && NoBreaks(p.host)
    ensures NoBreaks(p.name + " " + Mask(p))
    ensures forall r :: NoBreaks(r) ==> NoBreaks(p.name + " " + (Mask(p) + " " + ("(" + r + ")")))
  {
    CatNoBreaks(p.user + "@", p.host);
    assert NoBreaks(Mask(p));
  }

  lemma {:induction false} FormatNoBreaks(msg: Message)
    requires WellFormed(msg) && FieldsHaveNoBreaks(msg)
    ensures NoBreaks(FormatMessage(msg))
  {
    var cmd := ToUpper(msg.command);
    if cmd in {"JOIN", "PART", "QUIT"} {
      MaskedFormatNoBreaks(msg);
    } else if cmd in {"NICK", "KICK", "TOPIC", "MODE"} {
      NickFormatNoBreaks(msg);
    } else if cmd in {"NOTICE", "PRIVMSG"} {
      TextFormatNoBreaks(msg);
    }
  }

  lemma {:induction false} SpokenNoBreaks(mark: string, name: string, end: string, text: string)
    requires NoBreaks(mark) && NoBreaks(name) && NoBreaks(end) && NoBreaks(text)
    ensures NoBreaks(mark + (name + end + text))
  {
    CatNoBreaks(name, end);
    CatNoBreaks(name + end, text);
    CatNoBreaks(mark, name + end + text);
  }

  lemma {:induction false} TextFormatNoBreaks(msg: Message)
    requires WellFormed(msg) && FieldsHaveNoBreaks(msg) && ToUpper(msg.command) in {"NOTICE", "PRIVMSG"}
    ensures NoBreaks(FormatMessage(msg))
  {
    var name, text := msg.prefix.name, msg.params[1];
    CtcpNoBreaks(text);
    SpokenNoBreaks("-", name, "- ", text);
    SpokenNoBreaks("<", name, "> ", text);
    SpokenNoBreaks("* ", name, " ", ParseCtcpText(text).1);
  }

  lemma {:induction false} EventNoBreaks(first: string, rest: string)
    requires NoBreaks(first) && NoBreaks(rest)
    ensures NoBreaks("*** " + (first + " " + rest))
  {
  }

  lemma {:induction false} MaskedFormatNoBreaks(msg: Message)
    requires WellFormed(msg) && FieldsHaveNoBreaks(msg) && ToUpper(msg.command) in {"JOIN", "PART", "QUIT"}
    ensures NoBreaks(FormatMessage(msg))
  {
    var cmd, p := ToUpper(msg.command), msg.prefix;
    MaskNoBreaks(p);
    if cmd == "JOIN" {
      EventNoBreaks("Joins:", p.name + " " + Mask(p));
    } else if cmd == "PART" {
      assert NoBreaks(Param(msg, 1));
      EventNoBreaks("Parts:", p.name + " " + (Mask(p) + " " + ("(" + Param(msg, 1) + ")")));
    } else {
      assert NoBreaks(Param(msg, 0));
      EventNoBreaks("Quits:", p.name + " " + (Mask(p) + " " + ("(" + Param(msg, 0) + ")")));
    }
  }

  lemma {:induction false} NickFormatNoBreaks(msg: Message)
    requires WellFormed(msg) && FieldsHaveNoBreaks(msg) && ToUpper(msg.command) in {"NICK", "KICK", "TOPIC", "MODE"}
    ensures NoBreaks(FormatMessage(msg))
  {
    var cmd, name := ToUpper(msg.command), msg.prefix.name;
    if cmd == "NICK" {
      VerbNoBreaks(name, "is now known as ", msg.params[0]);
    } else if cmd == "KICK" {
      var kicker := name + " " + ("(" + Param(msg, 2) + ")");
      assert NoBreaks(kicker);
      VerbNoBreaks(msg.params[1], "was kicked by ", kicker);
    } else if cmd == "TOPIC" {
      VerbNoBreaks(name, "changes topic to ", "'" + Param(msg, 1) + "'");
    } else {
      JoinNoBreaks(msg.params[1..]);
      VerbNoBreaks(name, "sets mode: ", Join(msg.params[1..], " "));
    }
  }

  lemma {:induction false} VerbNoBreaks(nick: string, verb: string, what: string)
    requires NoBreaks(nick) && NoBreaks(verb) && NoBreaks(what)
    ensures NoBreaks("*** " + (nick + " " + (verb + what)))
  {
    CatNoBreaks(verb, what);
    EventNoBreaks(nick, verb + what);
  }

  lemma {:induction false} LineHasNoBreaks(msg: Message, t: Time)
    requires WellFormed(msg) && FieldsHaveNoBreaks(msg)
    ensures NoBreaks(MarshalLine(msg, t))
  {
    FormatNoBreaks(msg);
    StampNoBreaks(t);
  }

  lemma {:induction false} StampNoBreaks(t: Time)
    ensures NoBreaks(Stamp(t))
  {
    var s := SecondOfDay(t);
    assert NoBreaks(TwoDigits(s / 3600)) && NoBreaks(TwoDigits(s / 60 % 60)) && NoBreaks(TwoDigits(s % 60));
  }
}
