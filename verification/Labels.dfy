/** Labeled responses and batches on a downstream connection: `SendMessage`, `SendBatch`, `FlushBatch` and the
    label part of `handleMessage` in `downstream.go`. Messages are values here. */
module Labels {
  import opened Seqs
  import opened Text

  datatype Message = Message(tags: map<string, string>, prefix: Option<string>, command: string, params: seq<string>)

  const SERVER_PREFIX: string := "soju"

  function Tag(msg: Message, key: string): string {
    if key in msg.tags then msg.tags[key] else ""
  }

  // ---- The part of SendMessage that adapts a message to the client's capabilities

  const DROPPED_WITHOUT: map<string, string> :=
    map["SETNAME" := "setname", "CHGHOST" := "chghost", "AWAY" := "away-notify", "ACCOUNT" := "account-notify",
        "MARKREAD" := "draft/read-marker", "READ" := "soju.im/read", "METADATA" := "draft/metadata-2",
        "REDACT" := "draft/message-redaction"]

  predicate TagSupported(caps: set<string>, name: string) {
    || "message-tags" in caps
    || (name == "time" && "server-time" in caps)
    || (name == "account" && "account-tag" in caps)
    || (name == "batch" && "batch" in caps)
  }

  predicate IsNumeric(cmd: string) {
    |cmd| == 3 && IsDigit(cmd[0]) && IsDigit(cmd[1]) && IsDigit(cmd[2])
  }

  predicate Dropped(caps: set<string>, command: string) {
    || (command == "TAGMSG" && "message-tags" !in caps)
    || (command in DROPPED_WITHOUT && DROPPED_WITHOUT[command] !in caps)
  }

  function AdaptTags(caps: set<string>, tags: map<string, string>): map<string, string> {
    var supported := map name | name in tags && TagSupported(caps, name) :: tags[name];
    if "batch" !in caps && "batch" in supported && supported["batch"] != "" then supported - {"batch"} else supported
  }

  function AdaptPrefix(msg: Message): Option<string> {
    if msg.prefix.Some? && msg.prefix.value != "*" then msg.prefix
    else if IsNumeric(msg.command) then Some(SERVER_PREFIX)
    else None
  }

  function Adapt(caps: set<string>, msg: Message): Option<Message> {
    if Dropped(caps, msg.command) then None
    else Some(Message(AdaptTags(caps, msg.tags), AdaptPrefix(msg), msg.command,
                      if msg.command == "JOIN" && "extended-join" !in caps then FirstN(msg.params, 1) else msg.params))
  }

  // ---- The part of SendMessage that labels and batches

  /** The label of the command being answered ("" for none), the number of the batch opened for it (0 for none, kept by
      the program as its decimal text) and the first message, held back until it is known whether it is the only one. */
  datatype LabelContext = LabelContext(lbl: string, batch: nat, pending: Option<Message>)

  datatype Output = Output(lastBatchRef: nat, sent: seq<Message>, ctx: LabelContext)

  function InBatch(msg: Message, ref: nat): Message {
    if Tag(msg, "batch") == "" then msg.(tags := msg.tags["batch" := Dec(ref)]) else msg
  }

  function OpenLabeled(lbl: string, ref: nat): Message {
    Message(map["label" := lbl], None, "BATCH", ["+" + Dec(ref), "labeled-response"])
  }

  function CloseBatch(ref: nat): Message {
    Message(map[], None, "BATCH", ["-" + Dec(ref)])
  }

  function OpenBatch(ref: nat, typ: string, params: seq<string>, tags: map<string, string>): Message {
    Message(tags, None, "BATCH", ["+" + Dec(ref), typ] + params)
  }

  function Ack(lbl: string): Message {
    Message(map["label" := lbl], None, "ACK", [])
  }

  function WithLabel(msg: Message, lbl: string): Message {
    msg.(tags := msg.tags["label" := lbl])
  }

  /** Send the held-back message in a newly opened batch. */
  function OpenForPending(o: Output): Output {
    if o.ctx.pending.None? then o else
    var ref := o.lastBatchRef + 1;
    Output(ref, o.sent + [OpenLabeled(o.ctx.lbl, ref), InBatch(o.ctx.pending.value, ref)],
        LabelContext(o.ctx.lbl, ref, None))
  }

  function Deliver(o: Output, msg: Message): Output {
    if o.ctx.lbl == "" then o.(sent := o.sent + [msg]) else
    var o := OpenForPending(o);
    if o.ctx.batch != 0 then o.(sent := o.sent + [InBatch(msg, o.ctx.batch)])
    else o.(ctx := o.ctx.(pending := Some(msg)))
  }

  function Flush(o: Output): Output {
    if o.ctx.lbl == "" then o
    else if o.ctx.pending.Some? then o.(sent := o.sent + [WithLabel(o.ctx.pending.value, o.ctx.lbl)])
    else if o.ctx.batch != 0 then o.(sent := o.sent + [CloseBatch(o.ctx.batch)])
    else o.(sent := o.sent + [Ack(o.ctx.lbl)])
  }

  // ---- Adaptation as seen by the rest of the program

  /** A connection's adaptation of messages, and whether it has the batch capability. */
  datatype Adapter = Adapter(adapt: Message -> Option<Message>, batch: bool)

  function AdapterFor(caps: set<string>): Adapter {
    Adapter(msg => Adapt(caps, msg), "batch" in caps)
  }

  /** What batching relies on: commands and batch tags are kept, unless the client does not know batches, and no label
      is invented. */
  ghost predicate Lawful(k: Adapter) {
    forall m {:trigger k.adapt(m)} :: k.adapt(m).Some? ==> Kept(m, k.adapt(m).value, k.batch)
  }

  predicate Kept(m: Message, a: Message, batch: bool) {
    && a.command == m.command
    && Tag(a, "batch") == (if batch then Tag(m, "batch") else "")
    && ("label" in a.tags ==> "label" in m.tags)
  }

  lemma {:induction false} AdapterForIsLawful(caps: set<string>)
    ensures Lawful(AdapterFor(caps))
  {
  }

  // ---- What a handler does

  /** One thing a handler emits: a message, or the start or end of a SendBatch call. `inside` names the enclosing
      SendBatch call, counted from the outermost, whose reference the message is tagged with. */
  datatype Emit =
    | Say(msg: Message, inside: Option<nat>)
    | Begin(typ: string, params: seq<string>, inside: Option<nat>)
    | End

  /** The output and the references of the SendBatch calls in progress. */
  datatype State = State(out: Output, env: seq<nat>)

  function EnvTag(tags: map<string, string>, env: seq<nat>, inside: Option<nat>): map<string, string> {
    if inside.Some? && inside.value < |env| then tags["batch" := Dec(env[inside.value])] else tags
  }

  /** The state after taking a batch reference, if one is taken. */
  function Prepare(s: State, e: Emit): State {
    match e
    case Say(_, _) => s
    case Begin(_, _, _) => State(s.out.(lastBatchRef := s.out.lastBatchRef + 1), s.env + [s.out.lastBatchRef + 1])
    case End => if s.env == [] then s else s.(env := s.env[..|s.env| - 1])
  }

  /** The message that reaches the labeling part, if any. */
  function Emitted(k: Adapter, s: State, e: Emit): seq<Message> {
    match e
    case Say(msg, inside) =>
      var adapted := k.adapt(msg.(tags := EnvTag(msg.tags, s.env, inside)));
      if adapted.Some? then [adapted.value] else []
    case Begin(typ, params, inside) =>
      if k.batch then [OpenBatch(s.out.lastBatchRef + 1, typ, params, EnvTag(map[], s.env, inside))] else []
    case End =>
      if k.batch && s.env != [] then [CloseBatch(s.env[|s.env| - 1])] else []
  }

  function Step(k: Adapter, s: State, e: Emit): State {
    var em, s' := Emitted(k, s, e), Prepare(s, e);
    if em == [] then s' else s'.(out := Deliver(s'.out, em[0]))
  }

  function Run(k: Adapter, s: State, emits: seq<Emit>): State
    decreases |emits|
  {
    if emits == [] then s else Run(k, Step(k, s, emits[0]), emits[1..])
  }

  /** All messages a handler emits, in order, adapted to the client. */
  function Trace(k: Adapter, s: State, emits: seq<Emit>): seq<Message>
    decreases |emits|
  {
    if emits == [] then [] else Emitted(k, s, emits[0]) + Trace(k, Step(k, s, emits[0]), emits[1..])
  }

  function Start(lastBatchRef: nat, sent: seq<Message>, lbl: string): State {
    State(Output(lastBatchRef, sent, LabelContext(lbl, 0, None)), [])
  }

  /** Answering one command: run the handler, then flush. */
  function Answer(k: Adapter, lastBatchRef: nat, sent: seq<Message>, lbl: string, emits: seq<Emit>): Output {
    Flush(Run(k, Start(lastBatchRef, sent, lbl), emits).out)
  }

  // ---- The connection as the program runs it

  class DownstreamConn {
    var lastBatchRef: nat
    var sent: seq<Message>
    var lbl: string
    var batch: nat
    var pending: Option<Message>
    var env: seq<nat>
    var caps: set<string>

    function Now(): State
      reads this
    {
      State(Output(lastBatchRef, sent, LabelContext(lbl, batch, pending)), env)
    }

    constructor (caps: set<string>)
      ensures Now() == Start(0, [], "") && this.caps == caps
    {
      lastBatchRef, sent, lbl, batch, pending, env := 0, [], "", 0, None, [];
      this.caps := caps;
    }

    method SendMessage(msg: Message)
      modifies this`lastBatchRef, this`sent, this`batch, this`pending
      ensures var adapted := Adapt(caps, msg);
              Now() == if adapted.None? then old(Now()) else old(Now()).(out := Deliver(old(Now()).out, adapted.value))
    {
      var adapted := Adapt(caps, msg);
      if adapted.None? {
        return;
      }
      var m := adapted.value;
      if lbl != "" {
        if pending.Some? {
          lastBatchRef := lastBatchRef + 1;
          batch := lastBatchRef;
          sent := sent + [OpenLabeled(lbl, batch)];
          sent := sent + [InBatch(pending.value, batch)];
          pending := None;
        }
        if batch != 0 {
          sent := sent + [InBatch(m, batch)];
        } else {
          pending := Some(m);
        }
      } else {
        sent := sent + [m];
      }
    }

    /** The part of SendBatch before its callback. */
    method BeginBatch(typ: string, params: seq<string>, tags: map<string, string>)
      modifies this`lastBatchRef, this`sent, this`batch, this`pending, this`env
      ensures var s := State(old(Now()).out.(lastBatchRef := old(lastBatchRef) + 1),
          old(env) + [old(lastBatchRef) + 1]);
              var adapted := Adapt(caps, OpenBatch(old(lastBatchRef) + 1, typ, params, tags));
              Now() == if "batch" in caps && adapted.Some? then s.(out := Deliver(s.out, adapted.value)) else s
    {
      lastBatchRef := lastBatchRef + 1;
      var ref := lastBatchRef;
      env := env + [ref];
      if "batch" in caps {
        SendMessage(OpenBatch(ref, typ, params, tags));
      }
    }

    /** The part of SendBatch after its callback. */
    method EndBatch()
      requires env != []
      modifies this`lastBatchRef, this`sent, this`batch, this`pending, this`env
      ensures var s := old(Now()).(env := old(env)[..|old(env)| - 1]);
              var adapted := Adapt(caps, CloseBatch(old(env)[|old(env)| - 1]));
              Now() == if "batch" in caps && adapted.Some? then s.(out := Deliver(s.out, adapted.value)) else s
    {
      var ref := env[|env| - 1];
      env := env[..|env| - 1];
      if "batch" in caps {
        SendMessage(CloseBatch(ref));
      }
    }

    method FlushBatch()
      modifies this`sent
      ensures Now() == old(Now()).(out := Flush(old(Now()).out))
    {
      if lbl != "" {
        if pending.Some? {
          sent := sent + [WithLabel(pending.value, lbl)];
        } else if batch != 0 {
          sent := sent + [CloseBatch(batch)];
        } else {
          sent := sent + [Ack(lbl)];
        }
      }
    }

    method HandleEmit(e: Emit)
      requires e.End? ==> env != []
      modifies this`lastBatchRef, this`sent, this`batch, this`pending, this`env
      ensures Now() == Step(AdapterFor(caps), old(Now()), e)
    {
      match e {
        case Say(msg, inside) =>
          SendMessage(msg.(tags := EnvTag(msg.tags, env, inside)));
        case Begin(typ, params, inside) =>
          AdaptsBatch(caps, OpenBatch(lastBatchRef + 1, typ, params, EnvTag(map[], env, inside)));
          BeginBatch(typ, params, EnvTag(map[], env, inside));
        case End =>
          AdaptsBatch(caps, CloseBatch(env[|env| - 1]));
          EndBatch();
      }
    }

    /** Answers a command locally; the client's label, if it sent one, is honoured with labeled-response. */
    method HandleMessage(clientLabel: Option<string>, emits: seq<Emit>)
      requires WellNested(emits, 0) && env == []
      modifies this
      ensures caps == old(caps) && env == []
      ensures var l := if clientLabel.Some? && "labeled-response" in caps then clientLabel.value else "";
              Now().out == Answer(AdapterFor(caps), old(lastBatchRef), old(sent), l, emits)
    {
      lbl, batch, pending := "", 0, None;
      if clientLabel.Some? && "labeled-response" in caps {
        lbl := clientLabel.value;
      }
      HandleEmits(emits);
      FlushBatch();
    }

    /** What a handler emits, one thing after the other. */
    method HandleEmits(emits: seq<Emit>)
      requires WellNested(emits, |env|)
      modifies this`lastBatchRef, this`sent, this`batch, this`pending, this`env
      ensures Now() == Run(AdapterFor(caps), old(Now()), emits) && env == []
    {
      ghost var k, start := AdapterFor(caps), Now();
      var i := 0;
      assert emits[0..] == emits;
      while i < |emits|
        invariant 0 <= i <= |emits| && lbl == old(lbl) && WellNested(emits[i..], |env|)
        invariant Run(k, Now(), emits[i..]) == Run(k, start, emits)
      {
        RunStep(k, Now(), emits, i);
        HandleEmit(emits[i]);
        i := i + 1;
      }
    }
  }

  lemma {:induction false} RunStep(k: Adapter, s: State, emits: seq<Emit>, i: nat)
    requires i < |emits| && WellNested(emits[i..], |s.env|)
    ensures Run(k, s, emits[i..]) == Run(k, Step(k, s, emits[i]), emits[i + 1..])
    ensures WellNested(emits[i + 1..], |Step(k, s, emits[i]).env|)
    ensures emits[i].End? ==> s.env != []
  {
    assert emits[i..][1..] == emits[i + 1..];
    StepEnv(k, s, emits[i]);
  }

  lemma {:induction false} StepEnv(k: Adapter, s: State, e: Emit)
    ensures Step(k, s, e).env == Prepare(s, e).env
    ensures Step(k, s, e).out.lastBatchRef >= Prepare(s, e).out.lastBatchRef
  {
  }

  /** BATCH messages pass the adaptation unchanged on connections that have the batch capability. */
  lemma {:induction false} AdaptsBatch(caps: set<string>, msg: Message)
    requires msg.command == "BATCH" && msg.prefix == None && msg.tags.Keys <= {"batch"}
    ensures "batch" in caps ==> Adapt(caps, msg) == Some(msg)
  {
    if "batch" in caps {
      assert AdaptTags(caps, msg.tags) == msg.tags;
    }
  }

  /** SendBatch calls end inside out, and messages are tagged with enclosing calls only. Handlers set no other batch
      tag, no label, and use SendBatch for BATCH messages. */
  predicate WellNested(emits: seq<Emit>, depth: nat) {
    if emits == [] then depth == 0 else
    match emits[0]
    case Say(msg, inside) =>
      && msg.command != "BATCH" && "label" !in msg.tags && "batch" !in msg.tags
      && (inside.Some? ==> inside.value < depth) && WellNested(emits[1..], depth)
    case Begin(_, _, inside) => (inside.Some? ==> inside.value < depth) && WellNested(emits[1..], depth + 1)
    case End => depth > 0 && WellNested(emits[1..], depth - 1)
  }

  // ---- What the client sees of one command

  function AllInBatch(msgs: seq<Message>, ref: nat): (r: seq<Message>)
    ensures |r| == |msgs| && forall i :: 0 <= i < |msgs| ==> r[i] == InBatch(msgs[i], ref)
  {
    seq(|msgs|, i requires 0 <= i < |msgs| => InBatch(msgs[i], ref))
  }

  /** The labeled form of an answer: an ACK for no message, the message itself for one, a batch for more. */
  function Wrap(lbl: string, msgs: seq<Message>, ref: nat): seq<Message> {
    if lbl == "" then msgs
    else if |msgs| == 0 then [Ack(lbl)]
    else if |msgs| == 1 then [WithLabel(msgs[0], lbl)]
    else [OpenLabeled(lbl, ref)] + AllInBatch(msgs, ref) + [CloseBatch(ref)]
  }

  /** How far the answer to a labeled command has come when `msgs` have been emitted. */
  predicate Buffered(o: Output, lbl: string, before: seq<Message>, msgs: seq<Message>) {
    && o.ctx.lbl == lbl && lbl != ""
    && (|msgs| <= 1 ==>
        o.sent == before && o.ctx.batch == 0 && o.ctx.pending == (if msgs == [] then None else Some(msgs[0])))
    && (|msgs| >= 2 ==>
          && o.ctx.batch != 0 && o.ctx.pending == None
          && o.sent == before + [OpenLabeled(lbl, o.ctx.batch)] + AllInBatch(msgs, o.ctx.batch))
  }

  lemma {:induction false} DeliverBuffers(o: Output, lbl: string, before: seq<Message>, msgs: seq<Message>,
          msg: Message)
    requires Buffered(o, lbl, before, msgs)
    ensures Buffered(Deliver(o, msg), lbl, before, msgs + [msg])
  {
    var o' := Deliver(o, msg);
    if |msgs| >= 2 {
      assert AllInBatch(msgs + [msg], o.ctx.batch) == AllInBatch(msgs, o.ctx.batch) + [InBatch(msg, o.ctx.batch)];
      assert o'.sent == o.sent + [InBatch(msg, o.ctx.batch)];
    } else if |msgs| == 1 {
      var ref := o.lastBatchRef + 1;
      assert AllInBatch(msgs + [msg], ref) == [InBatch(msgs[0], ref), InBatch(msg, ref)];
      assert o'.sent == before + [OpenLabeled(lbl, ref)] + [InBatch(msgs[0], ref), InBatch(msg, ref)];
    }
  }

  lemma {:induction false} StepBuffers(k: Adapter, s: State, e: Emit, lbl: string, before: seq<Message>,
          msgs: seq<Message>)
    requires Buffered(s.out, lbl, before, msgs)
    ensures Buffered(Step(k, s, e).out, lbl, before, msgs + Emitted(k, s, e))
  {
    var em, s' := Emitted(k, s, e), Prepare(s, e);
    assert Buffered(s'.out, lbl, before, msgs);
    if em == [] {
      assert msgs + em == msgs;
    } else {
      DeliverBuffers(s'.out, lbl, before, msgs, em[0]);
      assert em == [em[0]];
    }
  }

  lemma {:induction false} RunBuffers(k: Adapter, s: State, emits: seq<Emit>, lbl: string, before: seq<Message>,
          msgs: seq<Message>)
    requires Buffered(s.out, lbl, before, msgs)
    ensures Buffered(Run(k, s, emits).out, lbl, before, msgs + Trace(k, s, emits))
    decreases |emits|
  {
    if emits == [] {
      assert msgs + [] == msgs;
    } else {
      var em, s' := Emitted(k, s, emits[0]), Step(k, s, emits[0]);
      StepBuffers(k, s, emits[0], lbl, before, msgs);
      RunBuffers(k, s', emits[1..], lbl, before, msgs + em);
      var rest := Trace(k, s', emits[1..]);
      assert Trace(k, s, emits) == em + rest;
      assert msgs + em + rest == msgs + (em + rest);
    }
  }

  lemma {:induction false} RunUnlabeled(k: Adapter, s: State, emits: seq<Emit>)
    requires s.out.ctx.lbl == ""
    ensures Run(k, s, emits).out.sent == s.out.sent + Trace(k, s, emits)
    ensures Run(k, s, emits).out.ctx == s.out.ctx
    decreases |emits|
  {
    if emits == [] {
      assert s.out.sent + [] == s.out.sent;
    } else {
      var em, s' := Emitted(k, s, emits[0]), Step(k, s, emits[0]);
      assert s'.out.sent == s.out.sent + em && s'.out.ctx == s.out.ctx by {
        if em == [] { assert s.out.sent + em == s.out.sent; } else { assert em == [em[0]]; }
      }
      RunUnlabeled(k, s', emits[1..]);
      assert s.out.sent + em + Trace(k, s', emits[1..]) == s.out.sent + Trace(k, s, emits);
    }
  }

  /** The answer to a command is the labeled form of what its handler emitted, in order. */
  lemma {:induction false} AnswerWraps(k: Adapter, lastBatchRef: nat, sent: seq<Message>, lbl: string, emits: seq<Emit>)
    ensures var start := Start(lastBatchRef, sent, lbl);
            Answer(k, lastBatchRef, sent, lbl, emits).sent
            == sent + Wrap(lbl, Trace(k, start, emits), Run(k, start, emits).out.ctx.batch)
  {
    var start := Start(lastBatchRef, sent, lbl);
    if lbl == "" {
      RunUnlabeled(k, start, emits);
    } else {
      RunBuffers(k, start, emits, lbl, sent, []);
      assert [] + Trace(k, start, emits) == Trace(k, start, emits);
      FlushWraps(Run(k, start, emits).out, lbl, sent, Trace(k, start, emits));
    }
  }

  lemma {:induction false} FlushWraps(o: Output, lbl: string, before: seq<Message>, msgs: seq<Message>)
    requires Buffered(o, lbl, before, msgs)
    ensures Flush(o).sent == before + Wrap(lbl, msgs, o.ctx.batch)
  {
    if |msgs| >= 2 {
      assert Flush(o).sent == before + [OpenLabeled(lbl, o.ctx.batch)] + AllInBatch(msgs, o.ctx.batch)
          + [CloseBatch(o.ctx.batch)];
    }
  }

  lemma {:induction false} EmittedUnlabeled(k: Adapter, s: State, e: Emit)
    requires Lawful(k) && (e.Say? ==> "label" !in e.msg.tags)
    ensures var em := Emitted(k, s, e); em == [] || (em == [em[0]] && "label" !in em[0].tags)
  {
    if e.Say? {
      var m := e.msg.(tags := EnvTag(e.msg.tags, s.env, e.inside));
      assert k.adapt(m).Some? ==> Kept(m, k.adapt(m).value, k.batch);
    }
  }

  lemma {:induction false} TraceUnlabeled(k: Adapter, s: State, emits: seq<Emit>, i: nat)
    requires Lawful(k) && WellNested(emits, |s.env|) && i < |Trace(k, s, emits)|
    ensures "label" !in Trace(k, s, emits)[i].tags
    decreases |emits|
  {
    var em, s' := Emitted(k, s, emits[0]), Step(k, s, emits[0]);
    assert Trace(k, s, emits) == em + Trace(k, s', emits[1..]);
    EmittedUnlabeled(k, s, emits[0]);
    StepEnv(k, s, emits[0]);
    if i >= |em| {
      TraceUnlabeled(k, s', emits[1..], i - |em|);
    }
  }

  /** The label appears on the first message of the answer and on no other. */
  lemma {:induction false} OneLabel(k: Adapter, lastBatchRef: nat, sent: seq<Message>, lbl: string, emits: seq<Emit>)
    requires Lawful(k) && lbl != "" && WellNested(emits, 0)
    ensures var sent' := Answer(k, lastBatchRef, sent, lbl, emits).sent;
            && sent <= sent' && |sent| < |sent'|
            && Tag(sent'[|sent|], "label") == lbl
            && forall i :: |sent| < i < |sent'| ==> "label" !in sent'[i].tags
  {
    var start := Start(lastBatchRef, sent, lbl);
    var msgs, ref := Trace(k, start, emits), Run(k, start, emits).out.ctx.batch;
    AnswerWraps(k, lastBatchRef, sent, lbl, emits);
    forall i | 0 <= i < |msgs| ensures "label" !in msgs[i].tags {
      TraceUnlabeled(k, start, emits, i);
    }
    WrapLabelsOnce(lbl, msgs, ref);
    LabelsAfter(sent, Wrap(lbl, msgs, ref), lbl);
  }

  /** The labeled form has the label on its first message only. */
  lemma {:induction false} WrapLabelsOnce(lbl: string, msgs: seq<Message>, ref: nat)
    requires lbl != "" && forall i :: 0 <= i < |msgs| ==> "label" !in msgs[i].tags
    ensures var w := Wrap(lbl, msgs, ref);
            |w| > 0 && Tag(w[0], "label") == lbl && forall i :: 0 < i < |w| ==> "label" !in w[i].tags
  {
    var w := Wrap(lbl, msgs, ref);
    forall i | 0 < i < |w| ensures "label" !in w[i].tags {
      if i < |w| - 1 {
        assert w[i] == AllInBatch(msgs, ref)[i - 1];
        InBatchUnlabeled(msgs[i - 1], ref);
      }
    }
  }

  lemma {:induction false} InBatchUnlabeled(m: Message, ref: nat)
    requires "label" !in m.tags
    ensures "label" !in InBatch(m, ref).tags
  {
    assert "label"[0] != "batch"[0];
  }

  lemma {:induction false} LabelsAfter(sent: seq<Message>, w: seq<Message>, lbl: string)
    requires |w| > 0 && Tag(w[0], "label") == lbl && forall i :: 0 < i < |w| ==> "label" !in w[i].tags
    ensures var all := sent + w;
            && sent <= all && |sent| < |all| && Tag(all[|sent|], "label") == lbl
            && forall i :: |sent| < i < |all| ==> "label" !in all[i].tags
  {
    var all := sent + w;
    forall i | |sent| <= i < |all| ensures all[i] == w[i - |sent|] {
    }
  }

  // ---- Batches as the client tracks them

  /** The batches open on the client's side, outermost first, and every reference it has seen. */
  datatype Client = Client(open: seq<string>, seen: set<string>)

  /** What the client makes of a message; `None` if it breaks the rules: a batch tag must name an open batch, an opened
      reference must be new, and the innermost batch is closed first. */
  function Receive(c: Client, m: Message): Option<Client> {
    if Tag(m, "batch") != "" && Tag(m, "batch") !in c.open then None
    else if m.command != "BATCH" then Some(c)
    else if m.params == [] || m.params[0] == "" then None
    else
      var ref := m.params[0][1..];
      if m.params[0][0] == '+' then
        if ref in c.seen then None else Some(Client(c.open + [ref], c.seen + {ref}))
      else if m.params[0][0] == '-' && c.open != [] && c.open[|c.open| - 1] == ref then
        Some(c.(open := c.open[..|c.open| - 1]))
      else None
  }

  function Replay(c: Client, msgs: seq<Message>): Option<Client>
    decreases |msgs|
  {
    if msgs == [] then Some(c) else
    var c' := Receive(c, msgs[0]);
    if c'.None? then None else Replay(c'.value, msgs[1..])
  }

  lemma {:induction false} ReplayConcat(c: Client, a: seq<Message>, b: seq<Message>)
    ensures Replay(c, a + b) == var c' := Replay(c, a); if c'.None? then None else Replay(c'.value, b)
    decreases |a|
  {
    if a == [] {
      assert a + b == b;
    } else {
      assert (a + b)[1..] == a[1..] + b;
      if Receive(c, a[0]).Some? {
        ReplayConcat(Receive(c, a[0]).value, a[1..], b);
      }
    }
  }

  function Refs(env: seq<nat>): (r: seq<string>)
    ensures |r| == |env| && forall i :: 0 <= i < |env| ==> r[i] == Dec(env[i])
  {
    seq(|env|, i requires 0 <= i < |env| => Dec(env[i]))
  }

  /** The batches the client has open while a handler runs: the labeled one, then the SendBatch calls in progress. */
  function OpenDuring(k: Adapter, outer: Option<nat>, env: seq<nat>): seq<string> {
    (if outer.Some? then [Dec(outer.value)] else []) + (if k.batch then Refs(env) else [])
  }

  /** No reference still to be handed out has been seen, except that of the labeled batch, which opens first. */
  ghost predicate Unused(seen: set<string>, lastBatchRef: nat, outer: Option<nat>) {
    forall n: nat :: n > lastBatchRef && outer != Some(n) ==> Dec(n) !in seen
  }

  function Wrapped(msgs: seq<Message>, outer: Option<nat>): seq<Message> {
    if outer.Some? then AllInBatch(msgs, outer.value) else msgs
  }

  /** The reference of the labeled batch is decided once, and is a new one. */
  lemma {:induction false} BatchIsNew(k: Adapter, s: State, emits: seq<Emit>)
    ensures var b := Run(k, s, emits).out.ctx.batch;
            if s.out.ctx.batch != 0 && s.out.ctx.pending.None? then b == s.out.ctx.batch
            else b == s.out.ctx.batch || b > s.out.lastBatchRef
    ensures Run(k, s, emits).out.lastBatchRef >= s.out.lastBatchRef
    decreases |emits|
  {
    if emits != [] {
      BatchIsNew(k, Step(k, s, emits[0]), emits[1..]);
    }
  }

  /** The labeled batch is either open already, or will be opened during the rest of the run. */
  predicate IsOuter(k: Adapter, s: State, emits: seq<Emit>, outer: Option<nat>) {
    outer.Some? ==>
      && outer.value != 0
      && Run(k, s, emits).out.ctx.batch == outer.value
      && (s.out.ctx.batch == 0 || (s.out.ctx.batch == outer.value && s.out.ctx.pending == None
          && outer.value <= s.out.lastBatchRef))
  }

  lemma {:induction false} OuterStep(k: Adapter, s: State, emits: seq<Emit>, outer: Option<nat>)
    requires emits != [] && IsOuter(k, s, emits, outer)
    ensures IsOuter(k, Step(k, s, emits[0]), emits[1..], outer)
    ensures emits[0].Begin? ==> outer != Some(s.out.lastBatchRef + 1)
  {
    var s' := Step(k, s, emits[0]);
    BatchIsNew(k, s', emits[1..]);
  }

  lemma {:induction false} ReplayOne(c: Client, m: Message)
    ensures Replay(c, [m]) == Receive(c, m)
  {
    assert [m][1..] == [];
  }

  /** The batches that messages are put in are open. */
  lemma {:induction false} OpenNow(k: Adapter, outer: Option<nat>, env: seq<nat>)
    ensures outer.Some? ==> Dec(outer.value) in OpenDuring(k, outer, env)
    ensures k.batch ==> forall i :: 0 <= i < |env| ==> Dec(env[i]) in OpenDuring(k, outer, env)
  {
    var open := OpenDuring(k, outer, env);
    if outer.Some? {
      assert open[0] == Dec(outer.value);
    }
    if k.batch {
      forall i | 0 <= i < |env| ensures Dec(env[i]) in open {
        assert open[|open| - |env| + i] == Refs(env)[i];
      }
    }
  }

  /** A message tagged with nothing or with an enclosing call, as it is sent, has a tag the client knows. */
  lemma {:induction false} TagIsOpen(k: Adapter, env: seq<nat>, m: Message, inside: Option<nat>, outer: Option<nat>)
    requires Tag(m, "batch") == "" || (k.batch && inside.Some? && inside.value < |env| && Tag(m, "batch")
        == Dec(env[inside.value]))
    ensures var w := Wrapped([m], outer);
            && w == [w[0]] && w[0].command == m.command && w[0].params == m.params
            && (Tag(w[0], "batch") == "" || Tag(w[0], "batch") in OpenDuring(k, outer, env))
  {
    OpenNow(k, outer, env);
  }

  lemma {:induction false} ReceiveSay(k: Adapter, s: State, e: Emit, c: Client, outer: Option<nat>)
    requires Lawful(k) && e.Say? && e.msg.command != "BATCH" && "batch" !in e.msg.tags
        && (e.inside.Some? ==> e.inside.value < |s.env|)
    requires c.open == OpenDuring(k, outer, s.env)
    ensures Replay(c, Wrapped(Emitted(k, s, e), outer)) == Some(c)
  {
    var em := Emitted(k, s, e);
    if em != [] {
      var m := e.msg.(tags := EnvTag(e.msg.tags, s.env, e.inside));
      assert em == [em[0]] && Kept(m, em[0], k.batch);
      TagIsOpen(k, s.env, em[0], e.inside, outer);
      ReplayOne(c, Wrapped(em, outer)[0]);
    }
  }

  lemma {:induction false} ReceiveOpen(c: Client, m: Message, ref: nat)
    requires m.command == "BATCH" && m.params != [] && m.params[0] == "+" + Dec(ref)
    requires (Tag(m, "batch") == "" || Tag(m, "batch") in c.open) && Dec(ref) !in c.seen
    ensures Receive(c, m) == Some(Client(c.open + [Dec(ref)], c.seen + {Dec(ref)}))
  {
    assert m.params[0][1..] == Dec(ref);
  }

  lemma {:induction false} ReceiveClose(c: Client, m: Message, ref: nat)
    requires m.command == "BATCH" && m.params != [] && m.params[0] == "-" + Dec(ref)
    requires (Tag(m, "batch") == "" || Tag(m, "batch") in c.open) && c.open != [] && c.open[|c.open| - 1] == Dec(ref)
    ensures Receive(c, m) == Some(c.(open := c.open[..|c.open| - 1]))
  {
    assert m.params[0][1..] == Dec(ref);
  }

  /** Once a reference is handed out and seen, the ones still to be handed out are unused. */
  lemma {:induction false} StaysUnused(seen: set<string>, lastBatchRef: nat, outer: Option<nat>, ref: nat, last: nat,
          outer': Option<nat>)
    requires Unused(seen, lastBatchRef, outer) && lastBatchRef <= last && (ref <= last || outer' == Some(ref))
    requires outer' == outer || outer == None
    ensures Unused(seen + {Dec(ref)}, last, outer')
  {
    forall n: nat | n > last && outer' != Some(n) ensures Dec(n) !in seen + {Dec(ref)} {
      if Dec(n) == Dec(ref) {
        DecInjective(n, ref);
      }
    }
  }

  lemma {:induction false} ReceiveBegin(k: Adapter, s: State, e: Emit, c: Client, outer: Option<nat>)
    requires e.Begin? && (e.inside.Some? ==> e.inside.value < |s.env|)
    requires c.open == OpenDuring(k, outer, s.env) && Unused(c.seen, s.out.lastBatchRef, outer)
    requires outer != Some(s.out.lastBatchRef + 1)
    ensures var c' := Replay(c, Wrapped(Emitted(k, s, e), outer));
            && c'.Some? && c'.value.open == OpenDuring(k, outer, Prepare(s, e).env)
            && Unused(c'.value.seen, s.out.lastBatchRef + 1, outer)
  {
    var em, ref := Emitted(k, s, e), s.out.lastBatchRef + 1;
    if em != [] {
      TagIsOpen(k, s.env, em[0], e.inside, outer);
      var m := Wrapped(em, outer)[0];
      ReplayOne(c, m);
      ReceiveOpen(c, m, ref);
      OpenGrows(k, outer, s.env, ref);
      StaysUnused(c.seen, s.out.lastBatchRef, outer, ref, ref, outer);
    }
  }

  lemma {:induction false} OpenGrows(k: Adapter, outer: Option<nat>, env: seq<nat>, ref: nat)
    requires k.batch
    ensures OpenDuring(k, outer, env + [ref]) == OpenDuring(k, outer, env) + [Dec(ref)]
  {
    assert Refs(env + [ref]) == Refs(env) + [Dec(ref)];
  }

  lemma {:induction false} ReceiveEnd(k: Adapter, s: State, c: Client, outer: Option<nat>)
    requires s.env != []
    requires c.open == OpenDuring(k, outer, s.env)
    ensures var c' := Replay(c, Wrapped(Emitted(k, s, End), outer));
            && c'.Some? && c'.value.open == OpenDuring(k, outer, Prepare(s, End).env)
            && c'.value.seen == c.seen
  {
    var em := Emitted(k, s, End);
    if em != [] {
      var env, ref := s.env[..|s.env| - 1], s.env[|s.env| - 1];
      TagIsOpen(k, s.env, em[0], None, outer);
      var m := Wrapped(em, outer)[0];
      ReplayOne(c, m);
      assert s.env == env + [ref];
      OpenGrows(k, outer, env, ref);
      ReceiveClose(c, m, ref);
    }
  }

  lemma {:induction false} ReplayStep(k: Adapter, s: State, emits: seq<Emit>, c: Client, outer: Option<nat>)
    requires Lawful(k) && emits != [] && WellNested(emits, |s.env|) && IsOuter(k, s, emits, outer)
    requires c.open == OpenDuring(k, outer, s.env) && Unused(c.seen, s.out.lastBatchRef, outer)
    ensures var c', s' := Replay(c, Wrapped(Emitted(k, s, emits[0]), outer)), Step(k, s, emits[0]);
            c'.Some? && c'.value.open == OpenDuring(k, outer, s'.env)
                && Unused(c'.value.seen, s'.out.lastBatchRef, outer)
  {
    OuterStep(k, s, emits, outer);
    StepEnv(k, s, emits[0]);
    match emits[0] {
      case Say(_, _) => ReceiveSay(k, s, emits[0], c, outer);
      case Begin(_, _, _) => ReceiveBegin(k, s, emits[0], c, outer);
      case End => ReceiveEnd(k, s, c, outer);
    }
  }

  /** While a handler runs, the client accepts every message and its open batches are the ones in progress. */
  lemma {:induction false} ReplayTrace(k: Adapter, s: State, emits: seq<Emit>, c: Client, outer: Option<nat>)
    requires Lawful(k) && WellNested(emits, |s.env|) && IsOuter(k, s, emits, outer)
    requires c.open == OpenDuring(k, outer, s.env) && Unused(c.seen, s.out.lastBatchRef, outer)
    ensures var c', s' := Replay(c, Wrapped(Trace(k, s, emits), outer)), Run(k, s, emits);
            c'.Some? && c'.value.open == OpenDuring(k, outer, []) && Unused(c'.value.seen, s'.out.lastBatchRef, outer)
    decreases |emits|
  {
    if emits == [] {
      assert Wrapped([], outer) == [];
    } else {
      var em, s' := Emitted(k, s, emits[0]), Step(k, s, emits[0]);
      ReplayStep(k, s, emits, c, outer);
      OuterStep(k, s, emits, outer);
      assert emits[0..] == emits;
      RunStep(k, s, emits, 0);
      var c', rest := Replay(c, Wrapped(em, outer)).value, Trace(k, s', emits[1..]);
      ReplayTrace(k, s', emits[1..], c', outer);
      WrappedConcat(em, rest, outer);
      ReplayConcat(c, Wrapped(em, outer), Wrapped(rest, outer));
    }
  }

  lemma {:induction false} WrappedConcat(a: seq<Message>, b: seq<Message>, outer: Option<nat>)
    ensures Wrapped(a + b, outer) == Wrapped(a, outer) + Wrapped(b, outer)
  {
    var l, r := Wrapped(a + b, outer), Wrapped(a, outer) + Wrapped(b, outer);
    assert |l| == |r|;
    forall i | 0 <= i < |l| ensures l[i] == r[i] {
      assert (a + b)[i] == if i < |a| then a[i] else b[i - |a|];
    }
  }

  lemma {:induction false} LabelTagIsInert(c: Client, m: Message, lbl: string)
    ensures Receive(c, WithLabel(m, lbl)) == Receive(c, m)
  {
  }

  /** Answering a command leaves the client with no open batch and no broken rule. */
  lemma {:induction false} AnswerNests(k: Adapter, lastBatchRef: nat, sent: seq<Message>, lbl: string,
          emits: seq<Emit>, c: Client)
    requires Lawful(k) && WellNested(emits, 0) && c.open == [] && Unused(c.seen, lastBatchRef, None)
    ensures var o := Answer(k, lastBatchRef, sent, lbl, emits);
            && sent <= o.sent
            && var c' := Replay(c, o.sent[|sent|..]);
               c'.Some? && c'.value.open == [] && Unused(c'.value.seen, o.lastBatchRef, None)
  {
    var start := Start(lastBatchRef, sent, lbl);
    var msgs, o := Trace(k, start, emits), Run(k, start, emits).out;
    AnswerWraps(k, lastBatchRef, sent, lbl, emits);
    var w := Wrap(lbl, msgs, o.ctx.batch);
    assert (sent + w)[|sent|..] == w;
    BatchIsNew(k, start, emits);
    if lbl == "" || |msgs| <= 1 {
      ReplayTrace(k, start, emits, c, None);
      ShortReplays(c, lbl, msgs, o.ctx.batch);
    } else {
      RunBuffers(k, start, emits, lbl, sent, []);
      assert [] + msgs == msgs;
      LabeledNests(k, start, emits, lbl, c);
    }
  }

  /** An answer of at most one message, labeled or not, is to the client what the handler emitted. */
  lemma {:induction false} ShortReplays(c: Client, lbl: string, msgs: seq<Message>, ref: nat)
    requires lbl == "" || |msgs| <= 1
    ensures Replay(c, Wrap(lbl, msgs, ref)) == Replay(c, msgs)
  {
    if lbl != "" {
      if msgs == [] {
        ReplayOne(c, Ack(lbl));
      } else {
        assert msgs == [msgs[0]];
        ReplayOne(c, msgs[0]);
        ReplayOne(c, WithLabel(msgs[0], lbl));
        LabelTagIsInert(c, msgs[0], lbl);
      }
    }
  }

  lemma {:induction false} LabeledNests(k: Adapter, start: State, emits: seq<Emit>, lbl: string, c: Client)
    requires Lawful(k) && WellNested(emits, 0) && c.open == [] && Unused(c.seen, start.out.lastBatchRef, None)
    requires start.env == [] && start.out.ctx.batch == 0 && Run(k, start, emits).out.ctx.batch != 0
    ensures var o := Run(k, start, emits).out;
            var c' := Replay(c, [OpenLabeled(lbl, o.ctx.batch)] + AllInBatch(Trace(k, start, emits), o.ctx.batch)
                + [CloseBatch(o.ctx.batch)]);
            c'.Some? && c'.value.open == [] && Unused(c'.value.seen, o.lastBatchRef, None)
  {
    var o := Run(k, start, emits).out;
    var ref, open, close := o.ctx.batch, OpenLabeled(lbl, o.ctx.batch), CloseBatch(o.ctx.batch);
    var body := AllInBatch(Trace(k, start, emits), ref);
    BatchIsNew(k, start, emits);
    BatchAllocated(k, start, emits);
    var c1 := Client([Dec(ref)], c.seen + {Dec(ref)});
    ReceiveOpen(c, open, ref);
    ReplayOne(c, open);
    assert c.open + [Dec(ref)] == [Dec(ref)];
    StaysUnused(c.seen, start.out.lastBatchRef, None, ref, start.out.lastBatchRef, Some(ref));
    assert OpenDuring(k, Some(ref), []) == [Dec(ref)];
    ReplayTrace(k, start, emits, c1, Some(ref));
    var c2 := Replay(c1, body).value;
    ReceiveClose(c2, close, ref);
    ReplayOne(c2, close);
    ReplayConcat(c, [open] + body, [close]);
    ReplayConcat(c, [open], body);
  }

  /** Once handed out, the labeled batch's reference is not handed out again. */
  lemma {:induction false} BatchAllocated(k: Adapter, s: State, emits: seq<Emit>)
    requires s.out.ctx.batch <= s.out.lastBatchRef
    ensures Run(k, s, emits).out.ctx.batch <= Run(k, s, emits).out.lastBatchRef
    decreases |emits|
  {
    if emits != [] {
      BatchAllocated(k, Step(k, s, emits[0]), emits[1..]);
    }
  }

  // ---- Whole connections

  datatype Command = Command(caps: set<string>, lbl: string, emits: seq<Emit>)

  /** The output of a connection after answering these commands. */
  function AnswerAll(lastBatchRef: nat, sent: seq<Message>, cmds: seq<Command>): Output
    decreases |cmds|
  {
    if cmds == [] then Output(lastBatchRef, sent, LabelContext("", 0, None)) else
    var o := Answer(AdapterFor(cmds[0].caps), lastBatchRef, sent, cmds[0].lbl, cmds[0].emits);
    AnswerAll(o.lastBatchRef, o.sent, cmds[1..])
  }

  lemma {:induction false} CommandNests(cmd: Command, lastBatchRef: nat, sent: seq<Message>, c: Client)
    requires WellNested(cmd.emits, 0) && c.open == [] && Unused(c.seen, lastBatchRef, None)
    ensures var o := Answer(AdapterFor(cmd.caps), lastBatchRef, sent, cmd.lbl, cmd.emits);
            && sent <= o.sent
            && var c' := Replay(c, o.sent[|sent|..]);
               c'.Some? && c'.value.open == [] && Unused(c'.value.seen, o.lastBatchRef, None)
  {
    AdapterForIsLawful(cmd.caps);
    AnswerNests(AdapterFor(cmd.caps), lastBatchRef, sent, cmd.lbl, cmd.emits, c);
  }

  lemma {:induction false} AnswerAllNests(lastBatchRef: nat, sent: seq<Message>, cmds: seq<Command>, c: Client)
    requires forall i :: 0 <= i < |cmds| ==> WellNested(cmds[i].emits, 0)
    requires c.open == [] && Unused(c.seen, lastBatchRef, None)
    ensures var o := AnswerAll(lastBatchRef, sent, cmds);
            && sent <= o.sent
            && var c' := Replay(c, o.sent[|sent|..]); c'.Some? && c'.value.open == []
    decreases |cmds|
  {
    if cmds == [] {
      assert sent[|sent|..] == [];
    } else {
      var o := Answer(AdapterFor(cmds[0].caps), lastBatchRef, sent, cmds[0].lbl, cmds[0].emits);
      CommandNests(cmds[0], lastBatchRef, sent, c);
      var c1 := Replay(c, o.sent[|sent|..]).value;
      AnswerAllNests(o.lastBatchRef, o.sent, cmds[1..], c1);
      assert AnswerAll(lastBatchRef, sent, cmds) == AnswerAll(o.lastBatchRef, o.sent, cmds[1..]);
      ReplayFurther(c, sent, o.sent, AnswerAll(lastBatchRef, sent, cmds).sent);
    }
  }

  lemma {:induction false} ReplayFurther(c: Client, a: seq<Message>, b: seq<Message>, all: seq<Message>)
    requires a <= b <= all && Replay(c, b[|a|..]).Some?
    ensures a <= all && Replay(c, all[|a|..]) == Replay(Replay(c, b[|a|..]).value, all[|b|..])
  {
    assert all[|a|..] == b[|a|..] + all[|b|..];
    ReplayConcat(c, b[|a|..], all[|b|..]);
  }

  /** On a connection that answers any commands with any handlers, every batch tag names a batch open at that point,
      batches close inside out, no reference is used twice, and none is left open between commands. */
  lemma {:induction false} ConnectionNests(cmds: seq<Command>)
    requires forall i :: 0 <= i < |cmds| ==> WellNested(cmds[i].emits, 0)
    ensures var c := Replay(Client([], {}), AnswerAll(0, [], cmds).sent); c.Some? && c.value.open == []
  {
    AnswerAllNests(0, [], cmds, Client([], {}));
    var sent := AnswerAll(0, [], cmds).sent;
    assert sent[0..] == sent;
  }
}
