/** The outgoing side of a connection under every interleaving of its goroutines: the writer goroutine, `SendMessage`,
    `Shutdown` and `Close` of `conn.go`. Each step is one atomic action; timeouts and write errors may happen at any
    time. */
module ConnWriter {
  import opened Text

  const CHANNEL_CAPACITY: nat := 64

  /** What travels through the channel: a message, or the nil that asks the writer to stop. */
  datatype Item = Msg(id: int) | Stop

  /** Where a goroutine is inside one of the three calls. */
  datatype Call =
    | SendStart(id: int) | SendSelect(id: int)
    | ShutdownStart | ShutdownSelect
    | CloseStart | CloseConn | CloseChannel
    | Returned

  datatype Writer =
    | Waiting               // in its select
    | Holding(id: int)      // about to write
    | Exiting(call: Call)   // out of the loop, in its own Close call

  /** Why the writer left its loop. */
  datatype Reason = Running | GotStop | SawClosed | Failed

  datatype Who = TheWriter | Caller(t: nat)

  /** The shared state; `accepted`, `taken`, `written`, `reason` and `owner` record what has happened so far. */
  datatype State = State(
    closed: bool,             // the atomic flag
    closes: nat,              // how often closedCh has been closed; twice would panic
    buf: seq<Item>,           // the channel
    calls: map<nat, Call>,
    writer: Writer,
    accepted: seq<Item>,      // everything ever put into the channel
    taken: seq<Item>,         // everything the writer has received
    written: seq<int>,
    reason: Reason,
    owner: Option<Who>        // who set the flag
  )

  datatype Step =
    | Begin(t: nat, call: Call)
    | CheckClosed(t: nat)     // the load at the start of SendMessage and Shutdown
    | Accept(t: nat)          // the select puts the item into the channel
    | GiveUpClosed(t: nat)    // the select sees closedCh
    | GiveUpContext(t: nat)   // the select sees the context end
    | CloseStep(t: nat)       // the next action of a Close call
    | Receive
    | WriterSeesClosed
    | Write
    | WriteFails              // the rate limiter or the connection returns an error
    | WriterCloseStep

  predicate IsClosedCh(s: State) { s.closes > 0 }

  predicate At(s: State, t: nat, c: Call) { t in s.calls && s.calls[t] == c }

  predicate InSelect(c: Call) { c.SendSelect? || c.ShutdownSelect? }

  predicate InClose(c: Call) { c.CloseStart? || c.CloseConn? || c.CloseChannel? }

  predicate Enabled(s: State, e: Step) {
    match e
    case Begin(t, call) => t !in s.calls && (call.SendStart? || call.ShutdownStart? || call.CloseStart?)
    case CheckClosed(t) => t in s.calls && (s.calls[t].SendStart? || s.calls[t].ShutdownStart?)
    case Accept(t) => t in s.calls && InSelect(s.calls[t]) && |s.buf| < CHANNEL_CAPACITY
    case GiveUpClosed(t) => t in s.calls && InSelect(s.calls[t]) && IsClosedCh(s)
    case GiveUpContext(t) => t in s.calls && InSelect(s.calls[t])
    case CloseStep(t) => t in s.calls && InClose(s.calls[t])
    case Receive => s.writer.Waiting? && s.buf != []
    case WriterSeesClosed => s.writer.Waiting? && IsClosedCh(s)
    case Write => s.writer.Holding?
    case WriteFails => s.writer.Holding?
    case WriterCloseStep => s.writer.Exiting? && InClose(s.writer.call)
  }

  /** One action of a Close call by `who`: set the flag or find it set, close the connection, close closedCh. */
  function CloseAction(s: State, who: Who, c: Call): (State, Call)
    requires InClose(c)
  {
    if c.CloseStart? then
      if s.closed then (s, Returned) else (s.(closed := true, owner := Some(who)), CloseConn)
    else if c.CloseConn? then (s, CloseChannel)
    else (s.(closes := s.closes + 1), Returned)
  }

  function ItemOf(c: Call): Item
    requires InSelect(c)
  {
    if c.SendSelect? then Msg(c.id) else Stop
  }

  function Do(s: State, e: Step): State
    requires Enabled(s, e)
  {
    match e
    case Begin(t, call) => s.(calls := s.calls[t := call])
    case CheckClosed(t) =>
      var c := s.calls[t];
      s.(calls := s.calls[t := if s.closed then Returned else if c.SendStart? then SendSelect(c.id)
          else ShutdownSelect])
    case Accept(t) =>
      var item := ItemOf(s.calls[t]);
      s.(buf := s.buf + [item], accepted := s.accepted + [item], calls := s.calls[t := Returned])
    case GiveUpClosed(t) => s.(calls := s.calls[t := Returned])
    case GiveUpContext(t) => s.(calls := s.calls[t := if s.calls[t].ShutdownSelect? then CloseStart else Returned])
    case CloseStep(t) =>
      var (s', c) := CloseAction(s, Caller(t), s.calls[t]);
      s'.(calls := s'.calls[t := c])
    case Receive =>
      var item := s.buf[0];
      var s := s.(buf := s.buf[1..], taken := s.taken + [item]);
      if item.Stop? then s.(writer := Exiting(CloseStart), reason := GotStop) else s.(writer := Holding(item.id))
    case WriterSeesClosed => s.(writer := Exiting(CloseStart), reason := SawClosed)
    case Write => s.(written := s.written + [s.writer.id], writer := Waiting)
    case WriteFails => s.(writer := Exiting(CloseStart), reason := Failed)
    case WriterCloseStep =>
      var (s', c) := CloseAction(s, TheWriter, s.writer.call);
      s'.(writer := Exiting(c))
  }

  const INITIAL: State := State(false, 0, [], map[], Waiting, [], [], [], Running, None)

  // ---- The invariant

  function Items(ids: seq<int>): (r: seq<Item>)
    ensures |r| == |ids| && forall i :: 0 <= i < |ids| ==> r[i] == Msg(ids[i])
  {
    seq(|ids|, i requires 0 <= i < |ids| => Msg(ids[i]))
  }

  function PlaceOf(s: State, who: Who): Call {
    match who
    case TheWriter => if s.writer.Exiting? then s.writer.call else Returned
    case Caller(t) => if t in s.calls then s.calls[t] else Returned
  }

  predicate PastSwap(c: Call) { c.CloseConn? || c.CloseChannel? }

  /** Whoever set the flag is the only one past that point, until closedCh is closed. */
  ghost predicate CloseOnce(s: State) {
    && s.closes <= 1
    && (s.closed <==> s.owner.Some?)
    && (IsClosedCh(s) ==> s.closed)
    && forall who :: ClosesAlone(s, who)
  }

  /** What has been written, received and accepted, according to where the writer is. */
  predicate InOrder(s: State) {
    && s.accepted == s.taken + s.buf
    && |s.buf| <= CHANNEL_CAPACITY
    && (s.writer.Exiting? <==> !s.reason.Running?)
    && match s.reason
       case Running => s.taken == Items(s.written) + (if s.writer.Holding? then [Msg(s.writer.id)] else [])
       case GotStop => s.taken == Items(s.written) + [Stop]
       case SawClosed => s.taken == Items(s.written) && s.closed && s.owner != Some(TheWriter)
       case Failed => s.taken != [] && s.taken[|s.taken| - 1].Msg? && s.taken[..|s.taken| - 1] == Items(s.written)
  }

  /** The writer's own Close call is under way or has returned; before it, the writer has not set the flag. */
  predicate WriterCloses(s: State) {
    && (s.writer.Exiting? ==> InClose(s.writer.call) || s.writer.call.Returned?)
    && (!s.writer.Exiting? ==> s.owner != Some(TheWriter))
    && (s.writer.Exiting? && s.writer.call.Returned? ==> s.closed)
  }

  ghost predicate Inv(s: State) {
    CloseOnce(s) && InOrder(s) && WriterCloses(s)
  }

  lemma {:induction false} InitialInv()
    ensures Inv(INITIAL)
  {
    assert Items([]) == [];
  }

  /** What does not concern the order of messages. */
  predicate SameOrder(s: State, s': State) {
    && s'.accepted == s.accepted && s'.taken == s.taken && s'.buf == s.buf && s'.written == s.written
        && s'.reason == s.reason
    && (s'.writer == s.writer || (s'.writer.Exiting? && s.writer.Exiting?))
    && (s.closed ==> s'.closed && s'.owner == s.owner)
  }

  lemma {:induction false} SameOrderKeeps(s: State, s': State)
    requires InOrder(s) && SameOrder(s, s')
    ensures InOrder(s')
  {
  }

  lemma {:induction false} AcceptKeepsOrder(s: State, t: nat)
    requires InOrder(s) && Enabled(s, Accept(t))
    ensures InOrder(Do(s, Accept(t)))
  {
    var s' := Do(s, Accept(t));
    assert s'.accepted == s.taken + s'.buf;
  }

  lemma {:induction false} ReceiveKeepsOrder(s: State)
    requires InOrder(s) && Enabled(s, Receive)
    ensures InOrder(Do(s, Receive))
  {
    var s' := Do(s, Receive);
    assert s.buf == [s.buf[0]] + s.buf[1..];
    assert s'.taken + s'.buf == s.taken + ([s.buf[0]] + s.buf[1..]);
    assert s.taken == Items(s.written) by { assert Items(s.written) + [] == Items(s.written); }
  }

  lemma {:induction false} WriteKeepsOrder(s: State)
    requires InOrder(s) && Enabled(s, Write)
    ensures InOrder(Do(s, Write))
  {
    var s' := Do(s, Write);
    assert Items(s'.written) == Items(s.written) + [Msg(s.writer.id)];
    assert s'.taken == Items(s'.written) + [];
  }

  lemma {:induction false} WriteFailsKeepsOrder(s: State)
    requires InOrder(s) && Enabled(s, WriteFails)
    ensures InOrder(Do(s, WriteFails))
  {
    assert s.taken == Items(s.written) + [Msg(s.writer.id)];
    assert s.taken[..|s.taken| - 1] == Items(s.written);
  }

  lemma {:induction false} SeesClosedKeepsOrder(s: State)
    requires InOrder(s) && WriterCloses(s) && CloseOnce(s) && Enabled(s, WriterSeesClosed)
    ensures InOrder(Do(s, WriterSeesClosed))
  {
    assert Items(s.written) + [] == Items(s.written);
  }

  lemma {:induction false} StepKeepsOrder(s: State, e: Step)
    requires Inv(s) && Enabled(s, e)
    ensures InOrder(Do(s, e))
  {
    match e {
      case Accept(t) => AcceptKeepsOrder(s, t);
      case Receive => ReceiveKeepsOrder(s);
      case WriterSeesClosed => SeesClosedKeepsOrder(s);
      case Write => WriteKeepsOrder(s);
      case WriteFails => WriteFailsKeepsOrder(s);
      case _ => SameOrderKeeps(s, Do(s, e));
    }
  }

  /** Where `who` is in closing is consistent with who set the flag. */
  predicate ClosesAlone(s: State, who: Who) {
    PastSwap(PlaceOf(s, who)) <==> (s.owner == Some(who) && !IsClosedCh(s))
  }

  lemma {:induction false} CloseStepKeepsOnce(s: State, t: nat)
    requires CloseOnce(s) && Enabled(s, CloseStep(t))
    ensures CloseOnce(Do(s, CloseStep(t)))
  {
    var s' := Do(s, CloseStep(t));
    assert ClosesAlone(s, Caller(t));
    forall who ensures ClosesAlone(s', who) {
      assert ClosesAlone(s, who);
    }
  }

  lemma {:induction false} WriterCloseKeepsOnce(s: State)
    requires CloseOnce(s) && Enabled(s, WriterCloseStep)
    ensures CloseOnce(Do(s, WriterCloseStep))
  {
    var s' := Do(s, WriterCloseStep);
    assert ClosesAlone(s, TheWriter);
    forall who ensures ClosesAlone(s', who) {
      assert ClosesAlone(s, who);
    }
  }

  lemma {:induction false} OtherStepKeepsOnce(s: State, e: Step)
    requires CloseOnce(s) && WriterCloses(s) && Enabled(s, e) && !e.CloseStep? && !e.WriterCloseStep?
    ensures CloseOnce(Do(s, e))
  {
    var s' := Do(s, e);
    forall who ensures ClosesAlone(s', who) {
      assert ClosesAlone(s, who);
    }
  }

  lemma {:induction false} StepKeepsCloseOnce(s: State, e: Step)
    requires Inv(s) && Enabled(s, e)
    ensures CloseOnce(Do(s, e))
  {
    match e {
      case CloseStep(t) => CloseStepKeepsOnce(s, t);
      case WriterCloseStep => WriterCloseKeepsOnce(s);
      case _ => OtherStepKeepsOnce(s, e);
    }
  }

  lemma {:induction false} StepKeepsInv(s: State, e: Step)
    requires Inv(s) && Enabled(s, e)
    ensures Inv(Do(s, e))
  {
    StepKeepsOrder(s, e);
    StepKeepsCloseOnce(s, e);
  }

  predicate Possible(s: State, steps: seq<Step>)
    decreases |steps|
  {
    steps == [] || (Enabled(s, steps[0]) && Possible(Do(s, steps[0]), steps[1..]))
  }

  function Run(s: State, steps: seq<Step>): State
    requires Possible(s, steps)
    decreases |steps|
  {
    if steps == [] then s else Run(Do(s, steps[0]), steps[1..])
  }

  lemma {:induction false} RunKeepsInv(s: State, steps: seq<Step>)
    requires Inv(s) && Possible(s, steps)
    ensures Inv(Run(s, steps))
    decreases |steps|
  {
    if steps != [] {
      StepKeepsInv(s, steps[0]);
      RunKeepsInv(Do(s, steps[0]), steps[1..]);
    }
  }

  // ---- What holds in every reachable state

  /** closedCh is closed at most once, so closing it never panics. */
  lemma {:induction false} ClosedAtMostOnce(steps: seq<Step>)
    requires Possible(INITIAL, steps)
    ensures Run(INITIAL, steps).closes <= 1
  {
    InitialInv();
    RunKeepsInv(INITIAL, steps);
  }

  /** The messages written are the first messages accepted, in that order. */
  lemma {:induction false} WrittenIsPrefix(steps: seq<Step>)
    requires Possible(INITIAL, steps)
    ensures var s := Run(INITIAL, steps); Items(s.written) <= s.accepted
  {
    InitialInv();
    RunKeepsInv(INITIAL, steps);
    var s := Run(INITIAL, steps);
    assert Items(s.written) <= s.taken;
  }

  /** When the writer has stopped, then either everything accepted before the first request to stop has been written,
      or somebody else's Close came first, or writing failed. */
  lemma {:induction false} ShutdownFlushes(steps: seq<Step>)
    requires Possible(INITIAL, steps)
    ensures var s := Run(INITIAL, steps);
            s.writer.Exiting? ==>
              || Items(s.written) + [Stop] <= s.accepted
              || (s.reason.SawClosed? && s.closed && s.owner != Some(TheWriter))
              || s.reason.Failed?
  {
    InitialInv();
    RunKeepsInv(INITIAL, steps);
  }

  /** Every Close call, the writer's own included, has returned. */
  predicate ClosesReturned(s: State) {
    && (s.writer.Exiting? ==> s.writer.call.Returned?)
    && forall t :: t in s.calls ==> !InClose(s.calls[t])
  }

  /** Once the writer has exited and all Close calls have returned, closedCh is closed, so every sender can return. */
  lemma {:induction false} NobodyStaysBlocked(steps: seq<Step>, t: nat)
    requires Possible(INITIAL, steps)
    requires var s := Run(INITIAL, steps);
        s.writer.Exiting? && ClosesReturned(s) && t in s.calls && InSelect(s.calls[t])
    ensures var s := Run(INITIAL, steps); Enabled(s, GiveUpClosed(t)) && Do(s, GiveUpClosed(t)).calls[t].Returned?
  {
    InitialInv();
    RunKeepsInv(INITIAL, steps);
    var s := Run(INITIAL, steps);
    var who := s.owner.value;
    assert ClosesAlone(s, who) && !PastSwap(PlaceOf(s, who));
  }

  /** A sender that cannot go on waits for somebody who can: the writer, or the Close call that set the flag. */
  lemma {:induction false} SomebodyCanMove(steps: seq<Step>, t: nat)
    requires Possible(INITIAL, steps)
    requires var s := Run(INITIAL, steps); t in s.calls && InSelect(s.calls[t])
    ensures var s := Run(INITIAL, steps);
            || Enabled(s, Accept(t)) || Enabled(s, GiveUpClosed(t))
            || Enabled(s, Receive) || Enabled(s, Write) || Enabled(s, WriterCloseStep)
            || exists u :: Enabled(s, CloseStep(u))
  {
    InitialInv();
    RunKeepsInv(INITIAL, steps);
    var s := Run(INITIAL, steps);
    if s.writer.Exiting? && s.writer.call.Returned? && !IsClosedCh(s) {
      var who := s.owner.value;
      assert ClosesAlone(s, who) && PastSwap(PlaceOf(s, who));
      assert Enabled(s, CloseStep(who.t));
    }
  }
}
