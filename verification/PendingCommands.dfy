/** The queue of commands awaiting a reply from the upstream server, one per command type, and the labels put on them:
    `enqueueCommand`, `dequeueCommand`, `cancelPendingCommandsByDownstreamID`, `abortPendingCommands`,
    `SendMessageLabeled` and `parseLabel` in `upstream.go`. */
module PendingCommands {
  import opened Text

  datatype Cmd = Cmd(downstreamId: nat, downstreamLabel: string, params: seq<string>)

  /** A queued command; `sentAt` is missing until it is sent. */
  datatype Pending = Pending(cmd: Cmd, sentAt: Option<int>)

  const GIVE_UP_AFTER: int := 30

  const COMMAND_TYPES: set<string> := {"LIST", "WHO", "WHOIS", "AUTHENTICATE", "REGISTER", "VERIFY"}

  // ---- One command type

  /** The queue of one type and the commands of that type sent so far. */
  datatype Queue = Queue(q: seq<Pending>, sent: seq<Cmd>)

  datatype Event = Enqueue(cmd: Cmd, now: int) | Dequeue(now: int) | Cancel(downstreamId: nat) | Abort

  function SendNext(s: Queue, now: int): Queue {
    if s.q == [] then s else Queue(s.q[0 := s.q[0].(sentAt := Some(now))], s.sent + [s.q[0].cmd])
  }

  predicate TimedOut(q: seq<Pending>, now: int) {
    q != [] && q[0].sentAt.Some? && now - q[0].sentAt.value > GIVE_UP_AFTER
  }

  /** Moving every entry one place forward without shortening the queue: the last entry stays behind as well. */
  function Shift(q: seq<Pending>): seq<Pending>
    requires q != []
  {
    q[1..] + [q[|q| - 1]]
  }

  /** The queue entries of other downstream connections. */
  function DropPending(q: seq<Pending>, id: nat): seq<Pending> {
    if q == [] then []
    else if q[0].cmd.downstreamId == id then DropPending(q[1..], id)
    else [q[0]] + DropPending(q[1..], id)
  }

  /** Cancelling spares the head, which is in flight. */
  function CancelWaiting(q: seq<Pending>, id: nat): seq<Pending> {
    if q == [] then [] else [q[0]] + DropPending(q[1..], id)
  }

  function Step(s: Queue, e: Event): Queue {
    match e
    case Enqueue(cmd, now) =>
      var q := s.q + [Pending(cmd, None)];
      var q := if TimedOut(q, now) then Shift(q) else q;
      if |q| == 1 then SendNext(Queue(q, s.sent), now) else Queue(q, s.sent)
    case Dequeue(now) => SendNext(s.(q := if s.q == [] then [] else s.q[1..]), now)
    case Cancel(id) => s.(q := CancelWaiting(s.q, id))
    case Abort => s.(q := [])
  }

  // ---- The life of every command

  datatype Fate = Waiting | InFlight | Answered | Cancelled | Aborted(wasSent: bool)

  datatype Entry = Entry(cmd: Cmd, fate: Fate)

  /** Every command ever enqueued, in that order, with what has become of it. */
  type History = seq<Entry>

  predicate Live(e: Entry) { e.fate.Waiting? || e.fate.InFlight? }

  predicate WasSent(e: Entry) { e.fate.InFlight? || e.fate.Answered? || e.fate == Aborted(true) }

  /** The commands that are waiting or in flight, in the order they were enqueued. */
  function LiveCmds(h: History): seq<Cmd> {
    if h == [] then [] else if Live(h[0]) then [h[0].cmd] + LiveCmds(h[1..]) else LiveCmds(h[1..])
  }

  /** The commands that have been sent, in the order they were enqueued. */
  function SentCmds(h: History): seq<Cmd> {
    if h == [] then [] else if WasSent(h[0]) then [h[0].cmd] + SentCmds(h[1..]) else SentCmds(h[1..])
  }

  /** The first live entry is given a new fate. */
  function SetFirst(h: History, fate: Fate): (r: History)
    ensures |r| == |h|
  {
    if h == [] then [] else if Live(h[0]) then [h[0].(fate := fate)] + h[1..] else [h[0]] + SetFirst(h[1..], fate)
  }

  function CancelAll(h: History, id: nat): (r: History)
    ensures |r| == |h|
  {
    if h == [] then [] else
    [if h[0].fate.Waiting? && h[0].cmd.downstreamId == id then h[0].(fate := Cancelled) else h[0]]
        + CancelAll(h[1..], id)
  }

  function AbortAll(h: History): (r: History)
    ensures |r| == |h|
  {
    if h == [] then [] else
    [if Live(h[0]) then h[0].(fate := Aborted(h[0].fate.InFlight?)) else h[0]] + AbortAll(h[1..])
  }

  /** What an event means for the commands' lives: a new command waits unless it is alone; a reply answers the command
      in flight and sends the next one; only waiting commands are cancelled; aborting ends all. */
  function Advance(h: History, e: Event): History {
    match e
    case Enqueue(cmd, _) => h + [Entry(cmd, if LiveCmds(h) == [] then InFlight else Waiting)]
    case Dequeue(_) => SetFirst(SetFirst(h, Answered), InFlight)
    case Cancel(id) => CancelAll(h, id)
    case Abort => AbortAll(h)
  }

  predicate NoneSent(h: History) {
    forall i :: 0 <= i < |h| ==> !WasSent(h[i])
  }

  /** The first live command has the given fate, and nothing behind it has been sent. */
  predicate FirstLive(h: History, fate: Fate) {
    h != [] ==> if Live(h[0]) then h[0].fate == fate && NoneSent(h[1..]) else FirstLive(h[1..], fate)
  }

  /** Exactly the head of the queue has been sent. */
  predicate HeadInFlight(q: seq<Pending>) {
    forall i :: 0 <= i < |q| ==> (q[i].sentAt.Some? <==> i == 0)
  }

  function Queued(q: seq<Pending>): (r: seq<Cmd>)
    ensures |r| == |q| && forall i :: 0 <= i < |q| ==> r[i] == q[i].cmd
  {
    seq(|q|, i requires 0 <= i < |q| => q[i].cmd)
  }

  /** The queue holds the live commands and the connection has sent the sent ones, both in the order of enqueueing;
      of the live ones the first is in flight and nothing behind it has been sent. */
  predicate Tracks(s: Queue, h: History) {
    && HeadInFlight(s.q)
    && Queued(s.q) == LiveCmds(h)
    && s.sent == SentCmds(h)
    && FirstLive(h, InFlight)
  }

  predicate GivesUp(s: Queue, e: Event) {
    e.Enqueue? && TimedOut(s.q, e.now)
  }

  // ---- Changing histories

  lemma {:induction false} AppendEntry(h: History, e: Entry)
    ensures LiveCmds(h + [e]) == LiveCmds(h) + (if Live(e) then [e.cmd] else [])
    ensures SentCmds(h + [e]) == SentCmds(h) + (if WasSent(e) then [e.cmd] else [])
  {
    if h == [] {
      assert h + [e] == [e] && [e][1..] == [];
    } else {
      assert (h + [e])[1..] == h[1..] + [e];
      AppendEntry(h[1..], e);
    }
  }

  lemma {:induction false} AppendFirstLive(h: History, e: Entry)
    requires FirstLive(h, InFlight) && e.fate == if LiveCmds(h) == [] then InFlight else Waiting
    ensures FirstLive(h + [e], InFlight)
  {
    if h == [] {
      assert h + [e] == [e];
    } else {
      assert (h + [e])[1..] == h[1..] + [e];
      if !Live(h[0]) {
        AppendFirstLive(h[1..], e);
      }
    }
  }

  /** Answering the command in flight takes it out of the live ones. */
  lemma {:induction false} AnswerFirst(h: History)
    requires FirstLive(h, InFlight)
    ensures var h' := SetFirst(h, Answered);
            && SentCmds(h') == SentCmds(h)
            && LiveCmds(h') == (if LiveCmds(h) == [] then [] else LiveCmds(h)[1..])
            && FirstLive(h', Waiting)
  {
    if h != [] {
      var h' := SetFirst(h, Answered);
      if Live(h[0]) {
        assert h'[1..] == h[1..];
        NoneSentWaits(h[1..]);
      } else {
        assert h'[1..] == SetFirst(h[1..], Answered);
        AnswerFirst(h[1..]);
      }
    }
  }

  lemma {:induction false} NoneSentWaits(h: History)
    requires NoneSent(h)
    ensures FirstLive(h, Waiting) && SentCmds(h) == []
  {
    if h != [] {
      NoneSentWaits(h[1..]);
    }
  }

  /** The first of the waiting commands is sent next, behind everything sent before. */
  lemma {:induction false} SendFirst(h: History)
    requires FirstLive(h, Waiting)
    ensures var h', live := SetFirst(h, InFlight), LiveCmds(h);
            && LiveCmds(h') == live
            && SentCmds(h') == SentCmds(h) + (if live == [] then [] else [live[0]])
            && FirstLive(h', InFlight)
  {
    if h != [] {
      var h' := SetFirst(h, InFlight);
      if Live(h[0]) {
        assert h'[1..] == h[1..];
        NoneSentWaits(h[1..]);
      } else {
        assert h'[1..] == SetFirst(h[1..], InFlight);
        SendFirst(h[1..]);
      }
    }
  }

  function DropCmds(cmds: seq<Cmd>, id: nat): seq<Cmd> {
    if cmds == [] then [] else if cmds[0].downstreamId == id then DropCmds(cmds[1..], id)
        else [cmds[0]] + DropCmds(cmds[1..], id)
  }

  lemma {:induction false} CancelUnsent(h: History, id: nat)
    requires NoneSent(h)
    ensures NoneSent(CancelAll(h, id)) && LiveCmds(CancelAll(h, id)) == DropCmds(LiveCmds(h), id)
  {
    if h != [] {
      CancelUnsent(h[1..], id);
      assert CancelAll(h, id)[1..] == CancelAll(h[1..], id);
    }
  }

  lemma {:induction false} CancelLive(h: History, id: nat)
    requires FirstLive(h, InFlight)
    ensures var h', live := CancelAll(h, id), LiveCmds(h);
            && SentCmds(h') == SentCmds(h)
            && LiveCmds(h') == (if live == [] then [] else [live[0]] + DropCmds(live[1..], id))
            && FirstLive(h', InFlight)
  {
    if h != [] {
      var h' := CancelAll(h, id);
      assert h'[1..] == CancelAll(h[1..], id);
      if Live(h[0]) {
        CancelUnsent(h[1..], id);
        NoneSentWaits(h[1..]);
        NoneSentWaits(CancelAll(h[1..], id));
      } else {
        CancelLive(h[1..], id);
      }
    }
  }

  lemma {:induction false} AbortLive(h: History)
    ensures var h' := AbortAll(h);
            SentCmds(h') == SentCmds(h) && LiveCmds(h') == [] && FirstLive(h', InFlight)
  {
    if h != [] {
      AbortLive(h[1..]);
      assert AbortAll(h)[1..] == AbortAll(h[1..]);
    }
  }

  lemma {:induction false} DropQueued(q: seq<Pending>, id: nat)
    ensures Queued(DropPending(q, id)) == DropCmds(Queued(q), id)
    ensures forall i :: 0 <= i < |DropPending(q, id)| ==> DropPending(q, id)[i] in q
  {
    if q != [] {
      assert Queued(q)[1..] == Queued(q[1..]);
      DropQueued(q[1..], id);
    }
  }

  // ---- The queue tracks the commands' lives

  lemma {:induction false} EnqueueTracks(s: Queue, h: History, e: Event)
    requires Tracks(s, h) && e.Enqueue? && !GivesUp(s, e)
    ensures Tracks(Step(s, e), Advance(h, e))
  {
    var entry := Entry(e.cmd, if LiveCmds(h) == [] then InFlight else Waiting);
    AppendEntry(h, entry);
    AppendFirstLive(h, entry);
    var q := s.q + [Pending(e.cmd, None)];
    assert Queued(q) == Queued(s.q) + [e.cmd];
    assert !TimedOut(q, e.now);
  }

  lemma {:induction false} DequeueTracks(s: Queue, h: History, e: Event)
    requires Tracks(s, h) && e.Dequeue?
    ensures Tracks(Step(s, e), Advance(h, e))
  {
    AnswerFirst(h);
    SendFirst(SetFirst(h, Answered));
    var q1 := if s.q == [] then [] else s.q[1..];
    assert Queued(q1) == LiveCmds(SetFirst(h, Answered));
    assert Queued(Step(s, e).q) == Queued(q1);
  }

  lemma {:induction false} CancelTracks(s: Queue, h: History, e: Event)
    requires Tracks(s, h) && e.Cancel?
    ensures Tracks(Step(s, e), Advance(h, e))
  {
    CancelLive(h, e.downstreamId);
    CancelKeepsHead(s.q, e.downstreamId);
    CancelQueued(s.q, e.downstreamId);
  }

  lemma {:induction false} CancelQueued(q: seq<Pending>, id: nat)
    ensures var cmds := Queued(q);
            Queued(CancelWaiting(q, id)) == if cmds == [] then [] else [cmds[0]] + DropCmds(cmds[1..], id)
  {
    if q != [] {
      assert Queued(q)[1..] == Queued(q[1..]);
      DropQueued(q[1..], id);
      var rest := DropPending(q[1..], id);
      assert Queued([q[0]] + rest) == [q[0].cmd] + Queued(rest);
    }
  }

  lemma {:induction false} CancelKeepsHead(q: seq<Pending>, id: nat)
    requires HeadInFlight(q)
    ensures HeadInFlight(CancelWaiting(q, id))
  {
    if q != [] {
      var rest := DropPending(q[1..], id);
      DropQueued(q[1..], id);
      forall i | 0 <= i < |rest| ensures rest[i].sentAt.None? {
        var j :| 0 <= j < |q[1..]| && q[1..][j] == rest[i];
        assert q[1..][j] == q[j + 1];
      }
    }
  }

  /** Every step except giving up keeps the queue and the commands' lives in line. */
  lemma {:induction false} StepTracks(s: Queue, h: History, e: Event)
    requires Tracks(s, h) && !GivesUp(s, e)
    ensures Tracks(Step(s, e), Advance(h, e))
  {
    match e {
      case Enqueue(_, _) => EnqueueTracks(s, h, e);
      case Dequeue(_) => DequeueTracks(s, h, e);
      case Cancel(_) => CancelTracks(s, h, e);
      case Abort => AbortLive(h);
    }
  }

  function Run(s: Queue, events: seq<Event>): Queue
    decreases |events|
  {
    if events == [] then s else Run(Step(s, events[0]), events[1..])
  }

  function Lives(h: History, events: seq<Event>): History
    decreases |events|
  {
    if events == [] then h else Lives(Advance(h, events[0]), events[1..])
  }

  /** No step of the run gives up. */
  predicate Patient(s: Queue, events: seq<Event>)
    decreases |events|
  {
    events == [] || (!GivesUp(s, events[0]) && Patient(Step(s, events[0]), events[1..]))
  }

  /** Over whole runs in which no step gives up, the queue is the live commands with exactly its head sent, and the
      commands were sent in the order they were enqueued, less the cancelled and aborted ones. */
  lemma {:induction false} RunTracks(s: Queue, h: History, events: seq<Event>)
    requires Tracks(s, h) && Patient(s, events)
    ensures Tracks(Run(s, events), Lives(h, events))
    decreases |events|
  {
    if events != [] {
      StepTracks(s, h, events[0]);
      RunTracks(Step(s, events[0]), Advance(h, events[0]), events[1..]);
    }
  }

  /** A command keeps its place; once its life has ended it does not change any more; in flight, it is not cancelled. */
  lemma {:induction false} LivesAdvance(h: History, e: Event, i: nat)
    requires i < |h|
    ensures i < |Advance(h, e)| && Advance(h, e)[i].cmd == h[i].cmd
    ensures !Live(h[i]) ==> Advance(h, e)[i] == h[i]
    ensures h[i].fate.InFlight? ==> !Advance(h, e)[i].fate.Cancelled?
  {
    match e {
      case Enqueue(_, _) =>
      case Dequeue(_) =>
        SetFirstAt(h, Answered, i);
        SetFirstAt(SetFirst(h, Answered), InFlight, i);
      case Cancel(id) => CancelAt(h, id, i);
      case Abort => AbortAt(h, i);
    }
  }

  lemma {:induction false} SetFirstAt(h: History, fate: Fate, i: nat)
    requires i < |h|
    ensures SetFirst(h, fate)[i] == h[i] || (Live(h[i]) && SetFirst(h, fate)[i] == h[i].(fate := fate))
  {
    if !Live(h[0]) && i > 0 {
      SetFirstAt(h[1..], fate, i - 1);
    }
  }

  lemma {:induction false} CancelAt(h: History, id: nat, i: nat)
    requires i < |h|
    ensures CancelAll(h, id)[i] == if h[i].fate.Waiting? && h[i].cmd.downstreamId == id then h[i].(fate := Cancelled)
        else h[i]
  {
    if i > 0 {
      CancelAt(h[1..], id, i - 1);
    }
  }

  lemma {:induction false} AbortAt(h: History, i: nat)
    requires i < |h|
    ensures AbortAll(h)[i] == if Live(h[i]) then h[i].(fate := Aborted(h[i].fate.InFlight?)) else h[i]
  {
    if i > 0 {
      AbortAt(h[1..], i - 1);
    }
  }

  /** Giving up is exactly what breaks the rule that the head has been sent: the command in flight is forgotten, its
      successor becomes head without being sent, and the new command is queued twice. */
  lemma {:induction false} GivingUpBreaks(s: Queue, e: Event)
    requires HeadInFlight(s.q)
    ensures HeadInFlight(Step(s, e).q) <==> !GivesUp(s, e)
    ensures GivesUp(s, e) ==> Step(s, e) == Queue(s.q[1..] + [Pending(e.cmd, None), Pending(e.cmd, None)], s.sent)
  {
    match e {
      case Enqueue(cmd, now) =>
        var q := s.q + [Pending(cmd, None)];
        if GivesUp(s, e) {
          assert TimedOut(q, now);
          assert Shift(q) == s.q[1..] + [Pending(cmd, None), Pending(cmd, None)];
          assert Step(s, e).q[0].sentAt.None?;
        } else {
          assert !TimedOut(q, now);
        }
      case Dequeue(_) =>
      case Cancel(id) => CancelKeepsHead(s.q, id);
      case Abort =>
    }
  }

  // ---- Labels

  function FormatLabel(downstreamId: nat, n: nat, downstreamLabel: string): string {
    "sd" + "-" + (Dec(downstreamId) + "-" + (Dec(n) + "-" + downstreamLabel))
  }

  datatype Parsed = Ok(downstreamId: nat, downstreamLabel: string) | Invalid

  function ParseLabel(text: string): Parsed {
    if text == "" then Ok(0, "") else
    var parts := SplitN(text, "-", 4);
    if |parts| < 4 || parts[0] != "sd" then Invalid else
    var id := ParseUint(parts[1]);
    if id.None? then Invalid else Ok(id.value, parts[3])
  }

  lemma {:induction false} SplitThree(b: string, c: string, d: string)
    requires '-' !in b && '-' !in c
    ensures SplitN(b + "-" + (c + "-" + d), "-", 3) == [b, c, d]
  {
    SplitFirst(b, '-', c + "-" + d, 3);
    SplitFirst(c, '-', d, 2);
    assert SplitN(d, "-", 1) == [d];
  }

  lemma {:induction false} SplitLabel(id: nat, n: nat, l: string)
    ensures SplitN(FormatLabel(id, n, l), "-", 4) == ["sd", Dec(id), Dec(n), l]
  {
    DecHasNoDash(id);
    DecHasNoDash(n);
    SplitFour("sd", Dec(id), Dec(n), l);
  }

  lemma {:induction false} DecHasNoDash(n: nat)
    ensures '-' !in Dec(n)
  {
  }

  lemma {:induction false} SplitFour(a: string, b: string, c: string, d: string)
    requires '-' !in a && '-' !in b && '-' !in c
    ensures SplitN(a + "-" + (b + "-" + (c + "-" + d)), "-", 4) == [a, b, c, d]
  {
    SplitFirst(a, '-', b + "-" + (c + "-" + d), 4);
    SplitThree(b, c, d);
  }

  /** A label parses back to the downstream connection and its own label, even when that label contains dashes. */
  lemma {:induction false} LabelRoundTrip(id: nat, n: nat, l: string)
    requires id < UINT64_LIMIT
    ensures ParseLabel(FormatLabel(id, n, l)) == Ok(id, l)
  {
    SplitLabel(id, n, l);
    ParseUintDec(id);
    assert FormatLabel(id, n, l)[0] == 's';
  }

  /** Labels with different numbers differ. */
  lemma {:induction false} LabelsDiffer(id1: nat, n1: nat, l1: string, id2: nat, n2: nat, l2: string)
    requires n1 != n2
    ensures FormatLabel(id1, n1, l1) != FormatLabel(id2, n2, l2)
  {
    SplitLabel(id1, n1, l1);
    SplitLabel(id2, n2, l2);
    if Dec(n1) == Dec(n2) {
      DecInjective(n1, n2);
    }
  }

  // ---- The connection

  /** A command as sent upstream, with the number of its label if it has one. */
  datatype Sent = Sent(command: string, cmd: Cmd, number: Option<nat>)

  /** The label a command was sent with. */
  function LabelOf(s: Sent): Option<string> {
    if s.number.None? then None else Some(FormatLabel(s.cmd.downstreamId, s.number.value, s.cmd.downstreamLabel))
  }

  /** The numbers of the labels grow, and stay below `next`. */
  predicate Numbered(out: seq<Sent>, next: nat) {
    && (forall i :: 0 <= i < |out| && out[i].number.Some? ==> out[i].number.value < next)
    && forall i, j ::
        0 <= i < j < |out| && out[i].number.Some? && out[j].number.Some? ==> out[i].number.value < out[j].number.value
  }

  /** No label is used twice, however the capabilities change between the commands. */
  lemma {:induction false} LabelsDistinct(out: seq<Sent>, next: nat)
    requires Numbered(out, next)
    ensures forall i, j :: 0 <= i < j < |out| && LabelOf(out[i]).Some? ==> LabelOf(out[i]) != LabelOf(out[j])
  {
    forall i, j | 0 <= i < j < |out| && out[i].number.Some? && out[j].number.Some?
        ensures LabelOf(out[i]) != LabelOf(out[j]) {
      LabelsDiffer(out[i].cmd.downstreamId, out[i].number.value, out[i].cmd.downstreamLabel,
                   out[j].cmd.downstreamId, out[j].number.value, out[j].cmd.downstreamLabel);
    }
  }

  /** The commands of one type among the sent ones. */
  function SentOf(out: seq<Sent>, command: string): seq<Cmd> {
    if out == [] then [] else
    SentOf(out[..|out| - 1], command) + if out[|out| - 1].command == command then [out[|out| - 1].cmd] else []
  }

  lemma {:induction false} SentOfAppend(out: seq<Sent>, x: Sent, command: string)
    ensures SentOf(out + [x], command) == if x.command == command then SentOf(out, command) + [x.cmd]
        else SentOf(out, command)
  {
    assert (out + [x])[..|out|] == out;
  }

  function QueueIn(pendingCmds: map<string, seq<Pending>>, command: string): seq<Pending> {
    if command in pendingCmds then pendingCmds[command] else []
  }

  class UpstreamConn {
    var pendingCmds: map<string, seq<Pending>>
    var nextLabelID: nat
    var out: seq<Sent>
    var caps: set<string>

    function QueueOf(command: string): Queue
      reads this
    {
      Queue(QueueIn(pendingCmds, command), SentOf(out, command))
    }

    ghost predicate Valid()
      reads this
    {
      Numbered(out, nextLabelID)
    }

    constructor ()
      ensures Valid() && caps == {}
      ensures forall command :: Tracks(QueueOf(command), [])
    {
      pendingCmds, nextLabelID, out, caps := map[], 0, [], {};
    }

    /** The server grants or withdraws capabilities, at any time. */
    method SetCaps(enabled: set<string>)
      requires Valid()
      modifies this`caps
      ensures Valid() && caps == enabled
      ensures forall command :: QueueOf(command) == old(QueueOf(command))
    {
      caps := enabled;
    }

    /** A label goes out exactly when both the labels and the tags to carry them are enabled; it is then a new one. */
    method SendMessageLabeled(command: string, c: Cmd)
      requires Valid()
      modifies this`nextLabelID, this`out
      ensures Valid()
      ensures |out| == |old(out)| + 1 && out[..|old(out)|] == old(out)
      ensures out[|old(out)|].command == command && out[|old(out)|].cmd == c
      ensures LabelOf(out[|old(out)|]).Some? <==> "labeled-response" in caps && "message-tags" in caps
      ensures forall other ::
          SentOf(out, other) == if other == command then old(SentOf(out, other)) + [c] else old(SentOf(out, other))
    {
      var number: Option<nat> := None;
      if "labeled-response" in caps {
        number := Some(nextLabelID);
        nextLabelID := nextLabelID + 1;
      }
      if "message-tags" !in caps {
        number := None;
      }
      forall other {
        SentOfAppend(out, Sent(command, c, number), other);
      }
      out := out + [Sent(command, c, number)];
    }

    method SendNextPendingCommand(command: string, now: int)
      requires Valid()
      modifies this`pendingCmds, this`nextLabelID, this`out
      ensures Valid()
      ensures QueueOf(command) == SendNext(old(QueueOf(command)), now)
      ensures forall other :: other != command ==> QueueOf(other) == old(QueueOf(other))
    {
      if command !in pendingCmds || |pendingCmds[command]| == 0 {
        return;
      }
      var q := pendingCmds[command];
      SendMessageLabeled(command, q[0].cmd);
      pendingCmds := pendingCmds[command := q[0 := q[0].(sentAt := Some(now))]];
    }

    method EnqueueCommand(command: string, c: Cmd, now: int)
      requires Valid() && command in COMMAND_TYPES
      modifies this`pendingCmds, this`nextLabelID, this`out
      ensures Valid()
      ensures QueueOf(command) == Step(old(QueueOf(command)), Enqueue(c, now))
      ensures forall other :: other != command ==> QueueOf(other) == old(QueueOf(other))
    {
      var q := QueueIn(pendingCmds, command) + [Pending(c, None)];
      if q[0].sentAt.Some? && now - q[0].sentAt.value > GIVE_UP_AFTER {
        q := q[1..] + [q[|q| - 1]];
      }
      pendingCmds := pendingCmds[command := q];
      if |q| == 1 {
        SendNextPendingCommand(command, now);
      }
    }

    method DequeueCommand(command: string, now: int) returns (head: Option<Cmd>)
      requires Valid()
      modifies this`pendingCmds, this`nextLabelID, this`out
      ensures Valid()
      ensures head == var q := old(QueueOf(command)).q; if q == [] then None else Some(q[0].cmd)
      ensures QueueOf(command) == Step(old(QueueOf(command)), Dequeue(now))
      ensures forall other :: other != command ==> QueueOf(other) == old(QueueOf(other))
    {
      head := None;
      if command in pendingCmds && |pendingCmds[command]| > 0 {
        head := Some(pendingCmds[command][0].cmd);
        pendingCmds := pendingCmds[command := pendingCmds[command][1..]];
      }
      SendNextPendingCommand(command, now);
    }

    method CancelPendingCommandsByDownstreamID(id: nat)
      requires Valid()
      modifies this`pendingCmds
      ensures Valid()
      ensures forall command :: QueueOf(command) == Step(old(QueueOf(command)), Cancel(id))
    {
      var todo := pendingCmds.Keys;
      while todo != {}
        invariant todo <= pendingCmds.Keys == old(pendingCmds.Keys)
        invariant forall c :: c in pendingCmds ==>
            pendingCmds[c] == if c in todo then old(pendingCmds[c]) else CancelWaiting(old(pendingCmds[c]), id)
      {
        var command :| command in todo;
        var q := CancelIn(pendingCmds[command], id);
        pendingCmds := pendingCmds[command := q];
        todo := todo - {command};
      }
    }

    method AbortPendingCommands()
      requires Valid()
      modifies this`pendingCmds
      ensures Valid()
      ensures forall command :: QueueOf(command) == Step(old(QueueOf(command)), Abort)
    {
      pendingCmds := map[];
    }
  }

  /** Deletes the entries of a downstream connection from the back of a queue, sparing its head. */
  method CancelIn(queue: seq<Pending>, id: nat) returns (q: seq<Pending>)
    ensures q == CancelWaiting(queue, id)
  {
    q := queue;
    if queue == [] {
      return;
    }
    var i := |q| - 1;
    assert queue[..i + 1] == queue && queue[i + 1..] == [];
    while i >= 1
      invariant 0 <= i < |queue|
      invariant q == queue[..i + 1] + DropPending(queue[i + 1..], id)
    {
      assert queue[i..][1..] == queue[i + 1..];
      assert queue[..i + 1] == queue[..i] + [queue[i]];
      if q[i].cmd.downstreamId == id {
        q := q[..i] + q[i + 1..];
      }
      i := i - 1;
    }
  }
}
