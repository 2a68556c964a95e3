/** The log line printer and parser of `msgstore/znclog`. */
module ZncLog {
  import opened Text
  import opened Clock

  datatype Prefix = Prefix(name: string, user: string, host: string)

  datatype Message = Message(prefix: Prefix, command: string, params: seq<string>)

  const SOH: char := '\U{0001}'

  // ---- xirc.ParseCTCPMessage

  function TrimLeft(s: string, c: char): (r: string)
    ensures r != "" ==> r[0] != c
  {
    if s != "" && s[0] == c then TrimLeft(s[1..], c) else s
  }

  function TrimRight(s: string, c: char): (r: string)
    ensures r != "" ==> r[|r| - 1] != c
  {
    if s != "" && s[|s| - 1] == c then TrimRight(s[..|s| - 1], c) else s
  }

  function ParseCtcpText(text: string): (string, string) {
    var words := SplitN(TrimRight(TrimLeft(text, SOH), SOH), " ", 2);
    (ToUpper(words[0]), if |words| > 1 then words[1] else "")
  }

  function ParseCtcp(msg: Message): Option<(string, string)> {
    if (msg.command != "PRIVMSG" && msg.command != "NOTICE") || |msg.params| < 2 then None
    else if !([SOH] <= msg.params[1]) then None
    else Some(ParseCtcpText(msg.params[1]))
  }

  predicate IsActionText(text: string) {
    [SOH] <= text && ParseCtcpText(text).0 == "ACTION"
  }

  // ---- writer.go

  /** The parameters `formatMessage` indexes without checking. */
  predicate WellFormed(msg: Message) {
    var cmd := ToUpper(msg.command);
    && (cmd in {"NICK", "MODE"} ==> |msg.params| >= 1)
    && (cmd in {"KICK", "NOTICE", "PRIVMSG"} ==> |msg.params| >= 2)
  }

  function Param(msg: Message, i: nat): string {
    if i < |msg.params| then msg.params[i] else ""
  }

  function Mask(p: Prefix): string {
    "(" + (p.user + "@" + p.host) + ")"
  }

  function FormatMessage(msg: Message): string
    requires WellFormed(msg)
  {
    var cmd, p := ToUpper(msg.command), msg.prefix;
    if cmd == "NICK" then "*** " + (p.name + " " + ("is now known as " + msg.params[0]))
    else if cmd == "JOIN" then "*** " + ("Joins:" + " " + (p.name + " " + Mask(p)))
    else if cmd == "PART" then "*** " + ("Parts:" + " "
        + (p.name + " " + (Mask(p) + " " + ("(" + Param(msg, 1) + ")"))))
    else if cmd == "KICK" then
      "*** " + (msg.params[1] + " " + ("was kicked by " + (p.name + " " + ("(" + Param(msg, 2) + ")"))))
    else if cmd == "QUIT" then "*** " + ("Quits:" + " "
        + (p.name + " " + (Mask(p) + " " + ("(" + Param(msg, 0) + ")"))))
    else if cmd == "TOPIC" then "*** " + (p.name + " " + ("changes topic to " + ("'" + Param(msg, 1) + "'")))
    else if cmd == "MODE" then "*** " + (p.name + " " + ("sets mode: " + Join(msg.params[1..], " ")))
    else if cmd == "NOTICE" then "-" + (p.name + "- " + msg.params[1])
    else if cmd == "PRIVMSG" then
      var ctcp := ParseCtcp(msg);
      if ctcp.Some? && ctcp.value.0 == "ACTION" then "* " + (p.name + " " + ctcp.value.1)
      else "<" + (p.name + "> " + msg.params[1])
    else ""
  }

  function TwoDigits(n: int): string
    requires 0 <= n < 100
  {
    [Digit(n / 10), Digit(n % 10)]
  }

  function Stamp(t: Time): (r: string)
    ensures |r| == STAMP_LENGTH
  {
    var s := SecondOfDay(t);
    "[" + TwoDigits(s / 3600) + ":" + TwoDigits(s / 60 % 60) + ":" + TwoDigits(s % 60) + "] "
  }

  /** The log line for `msg`, or "" when this kind of message is not logged. */
  function MarshalLine(msg: Message, t: Time): string
    requires WellFormed(msg)
  {
    var s := FormatMessage(msg);
    if s == "" then "" else Stamp(t) + s
  }

  // ---- reader.go

  const STAMP_LENGTH: nat := 11

  predicate IsSpace(c: char) {
    c == ' ' || '\t' <= c <= '\r'
  }

  function SkipSpace(s: string): string {
    if s != "" && IsSpace(s[0]) then SkipSpace(s[1..]) else s
  }

  /** `%02d` in `fmt.Sscanf`: spaces, then at most two characters holding an optional sign and digits. */
  function ScanInt(line: string): Option<(int, string)> {
    var s := SkipSpace(line);
    if s == "" then None
    else if s[0] == '+' || s[0] == '-' then
      if |s| > 1 && IsDigit(s[1]) then Some(((if s[0] == '-' then -1 else 1) * DigitsValue(s[1..2]), s[2..])) else None
    else if !IsDigit(s[0]) then None
    else if |s| > 1 && IsDigit(s[1]) then Some((10 * (s[0] as int - '0' as int) + (s[1] as int - '0' as int), s[2..]))
    else Some((s[0] as int - '0' as int, s[1..]))
  }

  /** One number and the literal character that must follow it. */
  function ScanField(line: string, close: char): Option<(int, string)> {
    var r := ScanInt(line);
    if r.None? || r.value.1 == "" || r.value.1[0] != close then None else Some((r.value.0, r.value.1[1..]))
  }

  /** `fmt.Sscanf(line, "[%02d:%02d:%02d] ")`: hour, minute and second. */
  function ScanStamp(line: string): Option<(int, int, int)> {
    if line == "" || line[0] != '[' then None else
    var h := ScanField(line[1..], ':');
    if h.None? then None else
    var m := ScanField(h.value.1, ':');
    if m.None? then None else
    var s := ScanField(m.value.1, ']');
    if s.None? || (s.value.1 != "" && !IsSpace(s.value.1[0])) then None else
    Some((h.value.0, m.value.0, s.value.0))
  }

  function Unwrap(s: string, left: string, right: string): string {
    TrimSuffix(TrimPrefix(s, left), right)
  }

  /** The body of a `*** ` line, without that marker. */
  function ParseEvent(line: string, entity: string): Option<Message> {
    var parts := SplitN(line, " ", 2);
    if |parts| != 2 then None
    else if parts[0] in EVENT_KEYWORDS then ParseMasked(parts[0], parts[1], entity)
    else ParseNickEvent(parts[0], parts[1], entity)
  }

  const EVENT_KEYWORDS: set<string> := {"Joins:", "Parts:", "Quits:"}

  function ParseMasked(keyword: string, rest: string, entity: string): Option<Message> {
    MaskedMessage(keyword, SplitN(rest, " ", 3), entity)
  }

  function MaskedMessage(keyword: string, args: seq<string>, entity: string): Option<Message> {
    if |args| < 2 then None else
    var mask := SplitN(Unwrap(args[1], "(", ")"), "@", 2);
    if |mask| != 2 then None else
    var prefix := Prefix(args[0], mask[0], mask[1]);
    var reason := if |args| > 2 then Unwrap(args[2], "(", ")") else "";
    if keyword == "Joins:" then Some(Message(prefix, "JOIN", [entity]))
    else if keyword == "Parts:" then Some(Message(prefix, "PART", [entity] + Optional(reason)))
    else Some(Message(prefix, "QUIT", Optional(reason)))
  }

  function Optional(s: string): seq<string> {
    if s == "" then [] else [s]
  }

  function ParseNickEvent(nick: string, rem: string, entity: string): Option<Message> {
    var author := Prefix(nick, "", "");
    if "is now known as " <= rem then Some(Message(author, "NICK", [TrimPrefix(rem, "is now known as ")]))
    else if "was kicked by " <= rem then
      var args := SplitN(TrimPrefix(rem, "was kicked by "), " ", 2);
      if |args| != 2 then None
      else Some(Message(Prefix(args[0], "", ""), "KICK", [entity, nick] + Optional(Unwrap(args[1], "(", ")"))))
    else if "changes topic to " <= rem then
      Some(Message(author, "TOPIC", [entity, Unwrap(TrimPrefix(rem, "changes topic to "), "'", "'")]))
    else if "sets mode: " <= rem then
      Some(Message(author, "MODE", [entity] + Split(TrimPrefix(rem, "sets mode: "), " ")))
    else None
  }

  function ParseText(line: string, entity: string, ownNick: string): Option<Message> {
    if "<" <= line then
      var parts := SplitN(line[1..], "> ", 2);
      if |parts| != 2 then None else Some(TextMessage("PRIVMSG", parts[0], parts[1], entity, ownNick))
    else if "-" <= line then
      var parts := SplitN(line[1..], "- ", 2);
      if |parts| != 2 then None else Some(TextMessage("NOTICE", parts[0], parts[1], entity, ownNick))
    else if "* " <= line then
      var parts := SplitN(line[2..], " ", 2);
      if |parts| != 2 then None else Some(TextMessage("PRIVMSG", parts[0], ActionText(parts[1]), entity, ownNick))
    else None
  }

  function ActionText(params: string): string {
    [SOH] + ("ACTION" + " " + params) + [SOH]
  }

  /** A line sent by the conversation's own peer was addressed to us. */
  function TextMessage(cmd: string, sender: string, text: string, entity: string, ownNick: string): Message {
    Message(Prefix(sender, "", ""), cmd, [if entity == sender then ownNick else entity, text])
  }

  function UnmarshalLine(line: string, ownNick: string, entity: string, day: int, events: bool): Decoded<Message> {
    var stamp := ScanStamp(line);
    if stamp.None? || |line| < STAMP_LENGTH then Malformed else
    var (h, m, s) := stamp.value;
    var rest := line[STAMP_LENGTH..];
    var msg := if events && "*** " <= rest then ParseEvent(rest[4..], entity) else ParseText(rest, entity, ownNick);
    if msg.None? then Ignored else Entry(msg.value, Date(day, h, m, s))
  }

  // ---- What the log keeps

  predicate IsEvent(msg: Message) {
    ToUpper(msg.command) in {"NICK", "JOIN", "PART", "KICK", "QUIT", "TOPIC", "MODE"}
  }

  predicate IsLogged(msg: Message) {
    IsEvent(msg) || ToUpper(msg.command) in {"NOTICE", "PRIVMSG"}
  }

  predicate NoSpace(s: string) {
    ' ' !in s
  }

  /** A nickname that cannot be mistaken for the start of another line. */
  predicate EventNick(nick: string) {
    NoSpace(nick) && nick !in EVENT_KEYWORDS
  }

  /** Names as the IRC grammar allows them: no spaces, no '@' in user names, nicks that are not event keywords. */
  predicate Loggable(msg: Message) {
    var cmd, p := ToUpper(msg.command), msg.prefix;
    && WellFormed(msg)
    && IsLogged(msg)
    && NoSpace(p.name)
    && (cmd in {"NICK", "TOPIC", "MODE"} ==> EventNick(p.name))
    && (cmd == "KICK" ==> EventNick(msg.params[1]))
    && (cmd in {"JOIN", "PART", "QUIT"} ==> NoSpace(p.user) && NoSpace(p.host) && '@' !in p.user)
  }

  /** `msg` reduced to the information a log line carries, as seen from the log of `entity`. */
  function Project(msg: Message, entity: string, ownNick: string): Message
    requires WellFormed(msg)
  {
    var cmd, p := ToUpper(msg.command), msg.prefix;
    var nickOnly := Prefix(p.name, "", "");
    if cmd == "NICK" then Message(nickOnly, cmd, [msg.params[0]])
    else if cmd == "JOIN" then Message(p, cmd, [entity])
    else if cmd == "PART" then Message(p, cmd, [entity] + Optional(Param(msg, 1)))
    else if cmd == "KICK" then Message(nickOnly, cmd, [entity, msg.params[1]] + Optional(Param(msg, 2)))
    else if cmd == "QUIT" then Message(p, cmd, Optional(Param(msg, 0)))
    else if cmd == "TOPIC" then Message(nickOnly, cmd, [entity, Param(msg, 1)])
    else if cmd == "MODE" then Message(nickOnly, cmd, [entity] + Split(Join(msg.params[1..], " "), " "))
    else if cmd in {"NOTICE", "PRIVMSG"} then
      var text := if msg.command == "PRIVMSG" && IsActionText(msg.params[1])
                  then ActionText(ParseCtcpText(msg.params[1]).1) else msg.params[1];
      TextMessage(cmd, p.name, text, entity, ownNick)
    else msg
  }

  // ---- The parser undoes the printer

  lemma {:induction false} StampScans(t: Time, rest: string)
    ensures var s := SecondOfDay(t);
            ScanStamp(Stamp(t) + rest) == Some((s / 3600, s / 60 % 60, s % 60))
  {
    var s := SecondOfDay(t);
    var r3 := "]" + (" " + rest);
    var r2 := TwoDigits(s % 60) + r3;
    var r1 := TwoDigits(s / 60 % 60) + (":" + r2);
    var r0 := TwoDigits(s / 3600) + (":" + r1);
    assert Stamp(t) + rest == "[" + r0;
    TwoDigitsScan(s / 3600, ":" + r1);
    TwoDigitsScan(s / 60 % 60, ":" + r2);
    TwoDigitsScan(s % 60, r3);
    assert (":" + r1)[1..] == r1 && (":" + r2)[1..] == r2 && r3[1..] == " " + rest;
  }

  lemma {:induction false} TwoDigitsScan(n: int, rest: string)
    requires 0 <= n < 100
    ensures ScanInt(TwoDigits(n) + rest) == Some((n, rest))
  {
    var s := TwoDigits(n) + rest;
    assert s[2..] == rest;
    assert SkipSpace(s) == s;
  }

  lemma {:induction false} DateOfClock(t: Time)
    ensures var s := SecondOfDay(t);
            Date(t.day, s / 3600, s / 60 % 60, s % 60) == TruncateSecond(t)
  {
    ClockParts(SecondOfDay(t));
  }

  lemma {:induction false} ClockParts(s: nat)
    ensures s / 3600 * 3600 + s / 60 % 60 * 60 + s % 60 == s
  {
    var m := s / 60;
    assert s == 60 * m + s % 60;
    assert m == 60 * (m / 60) + m % 60;
    assert m / 60 == s / 3600;
  }

  lemma {:induction false} UnwrapWrapped(s: string, left: string, right: string)
    ensures Unwrap(left + s + right, left, right) == s
  {
    var w := left + s + right;
    assert w == left + (s + right);
    assert w[|left|..] == s + right;
  }

  lemma {:induction false} SplitSpace(head: string, tail: string)
    requires NoSpace(head)
    ensures SplitN(head + " " + tail, " ", 2) == [head, tail]
  {
    SplitOnce(head, " ", tail);
  }

  lemma {:induction false} ParsesJoin(p: Prefix, entity: string)
    requires NoSpace(p.name) && NoSpace(p.user) && NoSpace(p.host) && '@' !in p.user
    ensures ParseMasked("Joins:", p.name + " " + Mask(p), entity) == Some(Message(p, "JOIN", [entity]))
  {
    SplitFirst(p.name, ' ', Mask(p), 3);
    FindAbsent(Mask(p), " ");
    assert SplitN(Mask(p), " ", 2) == [Mask(p)];
    SplitMask(p);
  }

  lemma {:induction false} ParsesPart(p: Prefix, reason: string, entity: string)
    requires NoSpace(p.name) && NoSpace(p.user) && NoSpace(p.host) && '@' !in p.user
    ensures ParseMasked("Parts:", p.name + " " + (Mask(p) + " " + ("(" + reason + ")")), entity)
         == Some(Message(p, "PART", [entity] + Optional(reason)))
  {
    SplitThree(p.name, Mask(p), "(" + reason + ")");
    LeaveMessage("Parts:", p, reason, entity);
  }

  lemma {:induction false} ParsesQuit(p: Prefix, reason: string, entity: string)
    requires NoSpace(p.name) && NoSpace(p.user) && NoSpace(p.host) && '@' !in p.user
    ensures ParseMasked("Quits:", p.name + " " + (Mask(p) + " " + ("(" + reason + ")")), entity)
         == Some(Message(p, "QUIT", Optional(reason)))
  {
    SplitThree(p.name, Mask(p), "(" + reason + ")");
    LeaveMessage("Quits:", p, reason, entity);
  }

  lemma {:induction false} LeaveMessage(keyword: string, p: Prefix, reason: string, entity: string)
    requires '@' !in p.user && keyword != "Joins:"
    ensures MaskedMessage(keyword, [p.name, Mask(p), "(" + reason + ")"], entity)
         == Some(if keyword == "Parts:" then Message(p, "PART", [entity] + Optional(reason))
                 else Message(p, "QUIT", Optional(reason)))
  {
    SplitMask(p);
    UnwrapWrapped(reason, "(", ")");
  }

  lemma {:induction false} SplitThree(a: string, b: string, c: string)
    requires NoSpace(a) && NoSpace(b)
    ensures SplitN(a + " " + (b + " " + c), " ", 3) == [a, b, c]
  {
    SplitFirst(a, ' ', b + " " + c, 3);
    SplitSpace(b, c);
  }

  lemma {:induction false} SplitMask(p: Prefix)
    requires '@' !in p.user
    ensures SplitN(Unwrap(Mask(p), "(", ")"), "@", 2) == [p.user, p.host]
  {
    UnwrapWrapped(p.user + "@" + p.host, "(", ")");
    SplitOnce(p.user, "@", p.host);
  }

  lemma {:induction false} ParsesEvent(msg: Message, entity: string, ownNick: string)
    requires Loggable(msg) && IsEvent(msg)
    ensures "*** " <= FormatMessage(msg)
    ensures ParseEvent(FormatMessage(msg)[4..], entity) == Some(Project(msg, entity, ownNick))
  {
    var cmd, p := ToUpper(msg.command), msg.prefix;
    if cmd in {"JOIN", "PART", "QUIT"} {
      ParsesMaskedEvent(msg, entity, ownNick);
    } else {
      ParsesNickEvent(msg, entity, ownNick);
    }
  }

  lemma {:induction false} ParsesMaskedEvent(msg: Message, entity: string, ownNick: string)
    requires Loggable(msg) && ToUpper(msg.command) in {"JOIN", "PART", "QUIT"}
    ensures "*** " <= FormatMessage(msg)
    ensures ParseEvent(FormatMessage(msg)[4..], entity) == Some(Project(msg, entity, ownNick))
  {
    var cmd := ToUpper(msg.command);
    if cmd == "JOIN" {
      ParsesJoinEvent(msg, entity, ownNick);
    } else if cmd == "PART" {
      ParsesPartEvent(msg, entity, ownNick);
    } else {
      ParsesQuitEvent(msg, entity, ownNick);
    }
  }

  /** What follows the marker of an event line. */
  lemma {:induction false} EventBody(line: string, first: string, rest: string)
    requires line == "*** " + (first + " " + rest) && NoSpace(first)
    ensures "*** " <= line && line[4..] == first + " " + rest && SplitN(line[4..], " ", 2) == [first, rest]
  {
    SplitSpace(first, rest);
  }

  lemma {:induction false} ParsesJoinEvent(msg: Message, entity: string, ownNick: string)
    requires Loggable(msg) && ToUpper(msg.command) == "JOIN"
    ensures "*** " <= FormatMessage(msg)
    ensures ParseEvent(FormatMessage(msg)[4..], entity) == Some(Project(msg, entity, ownNick))
  {
    var p := msg.prefix;
    var rest := p.name + " " + Mask(p);
    assert FormatMessage(msg) == "*** " + ("Joins:" + " " + rest);
    EventBody(FormatMessage(msg), "Joins:", rest);
    assert ParseEvent(FormatMessage(msg)[4..], entity) == ParseMasked("Joins:", rest, entity);
    ParsesJoin(p, entity);
    assert Project(msg, entity, ownNick) == Message(p, "JOIN", [entity]);
  }

  lemma {:induction false} ParsesPartEvent(msg: Message, entity: string, ownNick: string)
    requires Loggable(msg) && ToUpper(msg.command) == "PART"
    ensures "*** " <= FormatMessage(msg)
    ensures ParseEvent(FormatMessage(msg)[4..], entity) == Some(Project(msg, entity, ownNick))
  {
    var p, reason := msg.prefix, Param(msg, 1);
    EventBody(FormatMessage(msg), "Parts:", p.name + " " + (Mask(p) + " " + ("(" + reason + ")")));
    ParsesPart(p, reason, entity);
  }

  lemma {:induction false} ParsesQuitEvent(msg: Message, entity: string, ownNick: string)
    requires Loggable(msg) && ToUpper(msg.command) == "QUIT"
    ensures "*** " <= FormatMessage(msg)
    ensures ParseEvent(FormatMessage(msg)[4..], entity) == Some(Project(msg, entity, ownNick))
  {
    var p, reason := msg.prefix, Param(msg, 0);
    EventBody(FormatMessage(msg), "Quits:", p.name + " " + (Mask(p) + " " + ("(" + reason + ")")));
    ParsesQuit(p, reason, entity);
  }

  lemma {:induction false} ParsesNickEvent(msg: Message, entity: string, ownNick: string)
    requires Loggable(msg) && ToUpper(msg.command) in {"NICK", "KICK", "TOPIC", "MODE"}
    ensures "*** " <= FormatMessage(msg)
    ensures ParseEvent(FormatMessage(msg)[4..], entity) == Some(Project(msg, entity, ownNick))
  {
    var cmd, p := ToUpper(msg.command), msg.prefix;
    var nick := if cmd == "KICK" then msg.params[1] else p.name;
    var rem := if cmd == "NICK" then "is now known as " + msg.params[0]
               else if cmd == "KICK" then "was kicked by " + (p.name + " " + ("(" + Param(msg, 2) + ")"))
               else if cmd == "TOPIC" then "changes topic to " + ("'" + Param(msg, 1) + "'")
               else "sets mode: " + Join(msg.params[1..], " ");
    assert FormatMessage(msg) == "*** " + (nick + " " + rem);
    assert FormatMessage(msg)[4..] == nick + " " + rem;
    SplitSpace(nick, rem);
    if cmd == "NICK" { ParsesNick(nick, msg.params[0], entity); }
    else if cmd == "KICK" { ParsesKick(nick, p.name, Param(msg, 2), entity); }
    else if cmd == "TOPIC" { ParsesTopic(nick, Param(msg, 1), entity); }
    else { ParsesMode(nick, Join(msg.params[1..], " "), entity); }
  }

  lemma {:induction false} ParsesNick(nick: string, to: string, entity: string)
    ensures ParseNickEvent(nick, "is now known as " + to, entity) == Some(Message(Prefix(nick, "", ""), "NICK", [to]))
  {
    StripsVerb("is now known as ", to);
  }

  lemma {:induction false} ParsesKick(nick: string, kicker: string, reason: string, entity: string)
    requires NoSpace(kicker)
    ensures ParseNickEvent(nick, "was kicked by " + (kicker + " " + ("(" + reason + ")")), entity)
         == Some(Message(Prefix(kicker, "", ""), "KICK", [entity, nick] + Optional(reason)))
  {
    StripsVerb("was kicked by ", kicker + " " + ("(" + reason + ")"));
    SplitSpace(kicker, "(" + reason + ")");
    UnwrapWrapped(reason, "(", ")");
  }

  lemma {:induction false} ParsesTopic(nick: string, topic: string, entity: string)
    ensures ParseNickEvent(nick, "changes topic to " + ("'" + topic + "'"), entity)
         == Some(Message(Prefix(nick, "", ""), "TOPIC", [entity, topic]))
  {
    StripsVerb("changes topic to ", "'" + topic + "'");
    UnwrapWrapped(topic, "'", "'");
  }

  lemma {:induction false} ParsesMode(nick: string, modes: string, entity: string)
    ensures ParseNickEvent(nick, "sets mode: " + modes, entity)
         == Some(Message(Prefix(nick, "", ""), "MODE", [entity] + Split(modes, " ")))
  {
    StripsVerb("sets mode: ", modes);
  }

  /** The verbs start with different letters, which keeps the four kinds of line apart. */
  lemma {:induction false} StripsVerb(verb: string, tail: string)
    requires verb != ""
    ensures verb <= verb + tail && TrimPrefix(verb + tail, verb) == tail
    ensures (verb + tail)[0] == verb[0]
  {
  }

  lemma {:induction false} ParsesText(msg: Message, entity: string, ownNick: string)
    requires Loggable(msg) && !IsEvent(msg)
    ensures !("*** " <= FormatMessage(msg))
    ensures ParseText(FormatMessage(msg), entity, ownNick) == Some(Project(msg, entity, ownNick))
  {
    var cmd, name, text := ToUpper(msg.command), msg.prefix.name, msg.params[1];
    if cmd == "NOTICE" {
      ParsesNotice(name, text, entity, ownNick);
    } else if msg.command == "PRIVMSG" && IsActionText(text) {
      ParsesAction(name, ParseCtcpText(text).1, entity, ownNick);
    } else {
      assert FormatMessage(msg) == "<" + (name + "> " + text);
      ParsesSaid(name, text, entity, ownNick);
    }
  }

  lemma {:induction false} ParsesNotice(name: string, text: string, entity: string, ownNick: string)
    requires NoSpace(name)
    ensures var line := "-" + (name + "- " + text);
            !("*** " <= line) && ParseText(line, entity, ownNick)
                == Some(TextMessage("NOTICE", name, text, entity, ownNick))
  {
    var line := "-" + (name + "- " + text);
    assert line[0] == '-' && line[1..] == name + "- " + text;
    SplitOnce(name, "- ", text);
  }

  lemma {:induction false} ParsesSaid(name: string, text: string, entity: string, ownNick: string)
    requires NoSpace(name)
    ensures var line := "<" + (name + "> " + text);
            !("*** " <= line) && ParseText(line, entity, ownNick)
                == Some(TextMessage("PRIVMSG", name, text, entity, ownNick))
  {
    var line := "<" + (name + "> " + text);
    assert line[0] == '<' && line[1..] == name + "> " + text;
    SplitOnce(name, "> ", text);
  }

  lemma {:induction false} ParsesAction(name: string, params: string, entity: string, ownNick: string)
    requires NoSpace(name)
    ensures var line := "* " + (name + " " + params);
            !("*** " <= line)
            && ParseText(line, entity, ownNick)
                == Some(TextMessage("PRIVMSG", name, ActionText(params), entity, ownNick))
  {
    var line := "* " + (name + " " + params);
    assert line[0] == '*' && line[1] == ' ' && line[2..] == name + " " + params;
    SplitSpace(name, params);
  }

  /** Events are invisible to a reader that did not ask for them. */
  lemma {:induction false} EventsAreIgnored(line: string, entity: string, ownNick: string)
    requires "*** " <= line
    ensures ParseText(line, entity, ownNick) == None
  {
    assert line[0] == '*' && line[1] == '*';
  }

  /** Reading a written line gives the message reduced to what the log keeps, at its second. */
  lemma {:induction false} RoundTrip(msg: Message, t: Time, entity: string, ownNick: string, events: bool)
    requires Loggable(msg)
    ensures UnmarshalLine(MarshalLine(msg, t), ownNick, entity, t.day, events)
         == if IsEvent(msg) && !events then Ignored else Entry(Project(msg, entity, ownNick), TruncateSecond(t))
  {
    var body := FormatMessage(msg);
    ReadsBody(t, body, entity, ownNick, events);
    if IsEvent(msg) {
      ParsesEvent(msg, entity, ownNick);
      EventsAreIgnored(body, entity, ownNick);
    } else {
      ParsesText(msg, entity, ownNick);
    }
  }

  /** The time stamp is read back to the second, and the rest of the line is parsed as it stands. */
  lemma {:induction false} ReadsBody(t: Time, body: string, entity: string, ownNick: string, events: bool)
    ensures UnmarshalLine(Stamp(t) + body, ownNick, entity, t.day, events)
         == var msg := if events && "*** " <= body then ParseEvent(body[4..], entity)
             else ParseText(body, entity, ownNick);
            if msg.None? then Ignored else Entry(msg.value, TruncateSecond(t))
  {
    StampScans(t, body);
    DateOfClock(t);
    assert (Stamp(t) + body)[STAMP_LENGTH..] == body;
  }

  /** A line is written exactly for the logged commands. */
  lemma {:induction false} MarshalsLogged(msg: Message, t: Time)
    requires WellFormed(msg)
    ensures MarshalLine(msg, t) == "" <==> !IsLogged(msg)
  {
  }

  // ---- Printing what was read gives the same line

  lemma {:induction false} TrimRightStops(s: string, c: char)
    requires s == "" || s[|s| - 1] != c
    ensures TrimRight(s, c) == s
    ensures TrimRight(s + [c], c) == s
  {
    assert (s + [c])[..|s|] == s;
  }

  lemma {:induction false} CtcpParamsEnd(text: string)
    ensures var p := ParseCtcpText(text).1; p == "" || p[|p| - 1] != SOH
  {
    var trimmed := TrimRight(TrimLeft(text, SOH), SOH);
    var i := Find(trimmed, " ");
    if i >= 0 {
      assert SplitN(trimmed, " ", 2) == [trimmed[..i], trimmed[i + 1..]] by {
        assert SplitN(trimmed[i + 1..], " ", 1) == [trimmed[i + 1..]];
      }
    }
  }

  /** The text rebuilt for an ACTION parses back to the same parameters. */
  lemma {:induction false} ActionTextParses(params: string)
    requires params == "" || params[|params| - 1] != SOH
    ensures ActionText(params) != "" && [SOH] <= ActionText(params)
    ensures ParseCtcpText(ActionText(params)) == ("ACTION", params)
  {
    var body := "ACTION" + " " + params;
    var text := ActionText(params);
    assert text[1..] == body + [SOH];
    assert TrimLeft(body + [SOH], SOH) == body + [SOH];
    TrimRightStops(body, SOH);
    assert NoSpace("ACTION");
    SplitSpace("ACTION", params);
    assert ToUpper("ACTION") == "ACTION";
  }

  /** The commands whose printed form treats a lower-case command word differently. */
  predicate LowerCaseAction(msg: Message)
    requires WellFormed(msg)
  {
    ToUpper(msg.command) == "PRIVMSG" && msg.command != "PRIVMSG" && IsActionText(msg.params[1])
  }

  lemma {:induction false} UpperIsStable(s: string)
    ensures ToUpper(ToUpper(s)) == ToUpper(s)
  {
  }

  lemma {:induction false} ProjectIsLoggable(msg: Message, entity: string, ownNick: string)
    requires Loggable(msg)
    ensures Loggable(Project(msg, entity, ownNick))
    ensures Project(msg, entity, ownNick).command == ToUpper(msg.command)
  {
    UpperIsStable(msg.command);
  }

  /** Printing a message and printing what reading it back gives agree,
      except for an ACTION sent with a PRIVMSG command word not in upper case. */
  lemma {:induction false} PrintsAgain(msg: Message, entity: string, ownNick: string)
    requires Loggable(msg)
    ensures Loggable(Project(msg, entity, ownNick))
    ensures FormatMessage(Project(msg, entity, ownNick)) == FormatMessage(msg) <==> !LowerCaseAction(msg)
  {
    ProjectIsLoggable(msg, entity, ownNick);
    if ToUpper(msg.command) == "PRIVMSG" {
      PrintsTextAgain(msg, entity, ownNick);
    } else {
      PrintsOthersAgain(msg, entity, ownNick);
    }
  }

  lemma {:induction false} PrintsTextAgain(msg: Message, entity: string, ownNick: string)
    requires Loggable(msg) && Loggable(Project(msg, entity, ownNick)) && ToUpper(msg.command) == "PRIVMSG"
    ensures FormatMessage(Project(msg, entity, ownNick)) == FormatMessage(msg) <==> !LowerCaseAction(msg)
  {
    UpperIsStable(msg.command);
    var again, text := Project(msg, entity, ownNick), msg.params[1];
    if msg.command == "PRIVMSG" && IsActionText(text) {
      CtcpParamsEnd(text);
      ActionTextParses(ParseCtcpText(text).1);
    } else {
      assert FormatMessage(msg) == "<" + (msg.prefix.name + "> " + text);
    }
    if LowerCaseAction(msg) {
      assert FormatMessage(again)[0] == '*';
    }
  }

  lemma {:induction false} PrintsOthersAgain(msg: Message, entity: string, ownNick: string)
    requires Loggable(msg) && Loggable(Project(msg, entity, ownNick)) && ToUpper(msg.command) != "PRIVMSG"
    ensures FormatMessage(Project(msg, entity, ownNick)) == FormatMessage(msg) && !LowerCaseAction(msg)
  {
    UpperIsStable(msg.command);
    var again := Project(msg, entity, ownNick);
    if ToUpper(msg.command) == "MODE" {
      JoinSplit(Join(msg.params[1..], " "), " ");
      assert again.params[1..] == Split(Join(msg.params[1..], " "), " ");
    }
  }

  /** Written, read and written again, a line does not change. */
  lemma {:induction false} MarshalAgain(msg: Message, t: Time, entity: string, ownNick: string)
    requires Loggable(msg) && !LowerCaseAction(msg)
    ensures var d := UnmarshalLine(MarshalLine(msg, t), ownNick, entity, t.day, true);
            && d.Entry? && WellFormed(d.msg) && d.time.day == t.day
            && MarshalLine(d.msg, d.time) == MarshalLine(msg, t)
  {
    RoundTrip(msg, t, entity, ownNick, true);
    PrintsAgain(msg, entity, ownNick);
    StampKeepsSeconds(t);
  }

  lemma {:induction false} StampKeepsSeconds(t: Time)
    ensures Stamp(TruncateSecond(t)) == Stamp(t)
  {
    assert SecondOfDay(TruncateSecond(t)) == SecondOfDay(t);
  }

  /** The exception is real: this message's line changes when it is read and written again. */
  lemma {:induction false} LowerCaseActionChanges(t: Time)
    ensures var msg := Message(Prefix("a", "", ""), "privmsg", ["#c", ActionText("x")]);
            Loggable(msg) && LowerCaseAction(msg)
            && MarshalLine(Project(msg, "#c", "me"), t) != MarshalLine(msg, t)
  {
    var msg := Message(Prefix("a", "", ""), "privmsg", ["#c", ActionText("x")]);
    assert ToUpper("privmsg") == "PRIVMSG";
    ActionTextParses("x");
    assert Loggable(msg) && LowerCaseAction(msg);
    PrintsAgain(msg, "#c", "me");
    LinesDiffer(msg, Project(msg, "#c", "me"), t);
  }

  lemma {:induction false} LinesDiffer(a: Message, b: Message, t: Time)
    requires Loggable(a) && Loggable(b) && FormatMessage(a) != FormatMessage(b)
    ensures MarshalLine(a, t) != MarshalLine(b, t)
  {
    MarshalsLogged(a, t);
    MarshalsLogged(b, t);
    assert MarshalLine(a, t)[STAMP_LENGTH..] == FormatMessage(a);
    assert MarshalLine(b, t)[STAMP_LENGTH..] == FormatMessage(b);
  }
}
