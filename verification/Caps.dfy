/** Capability negotiation with a client: `handleCap`, `setSupportedCap`, `unsetSupportedCap` and
    `updateSupportedCaps` of `downstream.go` over the registry of `xirc/caps.go`, and the client's view of it. */
module Caps {
  import opened Seqs
  import opened Text

  const NOTIFY: string := "cap-notify"

  const INFORMATIONAL: string := "soju.im/account-required"

  const PASSTHROUGH: set<string> :=
    {"account-notify", "account-tag", "away-notify", "chghost", "extended-join", "extended-monitor", "labeled-response",
     "message-tags", "multi-prefix", "draft/extended-monitor", "draft/message-redaction"}

  datatype Reply =
    | LS(text: string)
    | LIST(text: string)
    | ACK(text: string)
    | NAK(text: string)
    | NEW(text: string)
    | DEL(text: string)

  /** The registry, the negotiated version, and everything sent to the client. */
  datatype Server = Server(available: map<string, string>, enabled: set<string>, version: int, registered: bool,
          out: seq<Reply>)

  // ---- Words and tokens

  predicate NonEmpty(s: string) { s != "" }

  /** Words separated by blanks, as clients read a list. */
  function Words(s: string): seq<string> {
    Filter(Split(s, " "), NonEmpty)
  }

  /** All white space of ASCII made blanks. */
  function Blanked(s: string): (r: string)
    ensures |r| == |s| && forall i :: 0 <= i < |s| ==> r[i] == if 9 <= s[i] as int <= 13 then ' ' else s[i]
  {
    seq(|s|, i requires 0 <= i < |s| => if 9 <= s[i] as int <= 13 then ' ' else s[i])
  }

  /** `strings.Fields`: words separated by any white space. */
  function Fields(s: string): seq<string> {
    Words(Blanked(s))
  }

  predicate IsName(s: string) {
    s != "" && ' ' !in s && '=' !in s
  }

  predicate IsValue(s: string) {
    ' ' !in s
  }

  predicate Clean(available: map<string, string>) {
    forall k :: k in available ==> IsName(k) && IsValue(available[k])
  }

  /** A capability as listed to the client; values are shown from version 302 on. */
  function Token(name: string, value: string, version: int): string {
    if version >= 302 && value != "" then name + "=" + value else name
  }

  function ParseToken(token: string): (string, string) {
    var i := Find(token, "=");
    if i < 0 then (token, "") else (token[..i], token[i + 1..])
  }

  /** A word of CAP REQ: a name, in lower case, to enable or, with a dash in front, to disable. */
  datatype Want = Want(name: string, enable: bool)

  function ParseWant(word: string): Want {
    var name := ToLower(word);
    if "-" <= name then Want(name[1..], false) else Want(name, true)
  }

  function ParseWants(words: seq<string>): (r: seq<Want>)
    ensures |r| == |words| && forall i :: 0 <= i < |words| ==> r[i] == ParseWant(words[i])
  {
    seq(|words|, i requires 0 <= i < |words| => ParseWant(words[i]))
  }

  // ---- The server's steps

  datatype Event =
    | Ls(requested: Option<int>, order: seq<string>)  // `order` is the order the registry happens to be listed in
    | List(order: seq<string>)
    | Req(text: string)
    | Set(name: string, value: string)
    | Unset(name: string)
    | Register

  /** The registry as LS lists it: unregistered clients are shown everything that may become available. */
  function Listed(s: Server, version: int): map<string, string> {
    if !s.registered && version >= 302 then s.available + (map k | k in PASSTHROUGH :: "") else s.available
  }

  function Listing(available: map<string, string>, order: seq<string>, version: int): (r: seq<string>)
    requires forall i :: 0 <= i < |order| ==> order[i] in available
    ensures |r| == |order| && forall i :: 0 <= i < |order| ==> r[i] == Token(order[i], available[order[i]], version)
  {
    seq(|order|, i requires 0 <= i < |order| => Token(order[i], available[order[i]], version))
  }

  /** A word that asks for nothing new, or for something the server can grant. */
  predicate Acceptable(s: Server, w: Want) {
    || w.enable == (w.name in s.enabled)
    || (&& w.name in s.available
        && !(w.name == NOTIFY && s.version >= 302 && !w.enable)
        && w.name != INFORMATIONAL)
  }

  /** What granting these words sets, word by word; words that ask for nothing new are passed over. */
  function Changes(enabled: set<string>, wants: seq<Want>): map<string, bool> {
    if wants == [] then map[] else
    var w := wants[|wants| - 1];
    var before := Changes(enabled, wants[..|wants| - 1]);
    if w.enable == (w.name in enabled) then before else before[w.name := w.enable]
  }

  function Granted(enabled: set<string>, changes: map<string, bool>): set<string> {
    (set n | n in enabled && (n in changes ==> changes[n])) + (set n | n in changes && changes[n])
  }

  predicate AllAcceptable(s: Server, wants: seq<Want>) {
    forall i :: 0 <= i < |wants| ==> Acceptable(s, wants[i])
  }

  function Version(s: Server, requested: Option<int>): int {
    if requested.Some? then requested.value else s.version
  }

  function Step(s: Server, e: Event): Server
    requires Possible(s, e)
  {
    match e
    case Ls(requested, order) =>
      var version := Version(s, requested);
      var available := Listed(s, version);
      Server(available, if version >= 302 then s.enabled + {NOTIFY} else s.enabled, version, s.registered,
             s.out + [LS(Join(Listing(available, order, version), " "))])
    case List(order) => s.(out := s.out + [LIST(Join(order, " "))])
    case Req(text) =>
      var wants := ParseWants(Fields(text));
      if AllAcceptable(s, wants) then s.(enabled := Granted(s.enabled, Changes(s.enabled, wants)), out := s.out
          + [ACK(text)])
      else s.(out := s.out + [NAK(text)])
    case Set(name, value) =>
      var changed := name !in s.available || s.available[name] != value;
      s.(available := s.available[name := value],
         out := if changed && NOTIFY in s.enabled then s.out + [NEW(Token(name, value, s.version))] else s.out)
    case Unset(name) =>
      // the registry entry is gone before cap-notify is looked up
      s.(available := s.available - {name}, enabled := s.enabled - {name},
         out := if name in s.available && NOTIFY in s.enabled - {name} then s.out + [DEL(name)] else s.out)
    case Register => s.(registered := true)
  }

  /** The registry is listed completely; no other part of the program touches cap-notify. */
  predicate Possible(s: Server, e: Event) {
    match e
    case Ls(requested, order) =>
      var available := Listed(s, Version(s, requested));
      SetOf(order) == available.Keys && forall i :: 0 <= i < |order| ==> order[i] in available
    case List(order) => SetOf(order) == s.enabled
    case Set(name, value) => name != NOTIFY && IsName(name) && IsValue(value)
    case Unset(name) => name != NOTIFY
    case _ => true
  }

  // ---- The client's view

  datatype Mirror = Mirror(available: map<string, string>, enabled: set<string>)

  function ParseListing(tokens: seq<string>): map<string, string> {
    if tokens == [] then map[] else
    var (name, value) := ParseToken(tokens[|tokens| - 1]);
    ParseListing(tokens[..|tokens| - 1])[name := value]
  }

  function ApplyWants(enabled: set<string>, wants: seq<Want>): set<string> {
    if wants == [] then enabled else
    var w := wants[|wants| - 1];
    var before := ApplyWants(enabled, wants[..|wants| - 1]);
    if w.enable then before + {w.name} else before - {w.name}
  }

  /** A client that asked for version 302 takes LS as the whole list and cap-notify as enabled, and otherwise only
      follows ACK, NEW and DEL. */
  function Receive(m: Mirror, r: Reply): Mirror {
    match r
    case LS(text) => Mirror(ParseListing(Words(text)), m.enabled + {NOTIFY})
    case ACK(text) => m.(enabled := ApplyWants(m.enabled, ParseWants(Fields(text))))
    case NEW(text) => var (name, value) := ParseToken(text); m.(available := m.available[name := value])
    case DEL(text) => Mirror(m.available - {text}, m.enabled - {text})
    case LIST(_) => m
    case NAK(_) => m
  }

  function Replay(m: Mirror, out: seq<Reply>): Mirror {
    if out == [] then m else Receive(Replay(m, out[..|out| - 1]), out[|out| - 1])
  }

  // ---- What every step keeps

  predicate Valid(s: Server) {
    && s.enabled <= s.available.Keys
    && NOTIFY in s.available
    && (s.version >= 302 ==> NOTIFY in s.enabled)
    && Clean(s.available)
  }

  lemma {:induction false} GrantedMember(enabled: set<string>, wants: seq<Want>, n: string)
    ensures n in Changes(enabled, wants) ==> Changes(enabled, wants)[n] == (n !in enabled)
    ensures n in Changes(enabled, wants) <==> exists i :: 0 <= i < |wants| && wants[i] == Want(n, n !in enabled)
  {
    if wants != [] {
      var init, w := wants[..|wants| - 1], wants[|wants| - 1];
      GrantedMember(enabled, init, n);
      if i :| 0 <= i < |wants| && wants[i] == Want(n, n !in enabled) {
        if i < |init| { assert init[i] == wants[i]; }
      }
      if n in Changes(enabled, init) {
        var i :| 0 <= i < |init| && init[i] == Want(n, n !in enabled);
        assert wants[i] == init[i];
      }
      if w == Want(n, n !in enabled) { assert wants[|wants| - 1] == Want(n, n !in enabled); }
    }
  }

  /** Enabled capabilities stay available, cap-notify stays available, and stays enabled from version 302 on. */
  lemma {:induction false} StepKeeps(s: Server, e: Event)
    requires Valid(s) && Possible(s, e)
    ensures Valid(Step(s, e))
  {
    match e {
      case Ls(requested, order) => ListedIsClean(s, Version(s, requested));
      case Req(text) => ReqKeeps(s, ParseWants(Fields(text)));
      case _ =>
    }
  }

  lemma {:induction false} ListedIsClean(s: Server, version: int)
    requires Clean(s.available)
    ensures Clean(Listed(s, version)) && s.available.Keys <= Listed(s, version).Keys
  {
    PassthroughNames();
  }

  lemma {:induction false} PassthroughNames()
    ensures forall k :: k in PASSTHROUGH ==> IsName(k)
  {
  }

  lemma {:induction false} PassthroughIsNotNotify()
    ensures NOTIFY !in PASSTHROUGH
  {
    var name: string := "cap-notify";
    assert |name| == 10 && name[1] == 'a' && name[0] == 'c';
  }

  lemma {:induction false} ReqKeeps(s: Server, wants: seq<Want>)
    requires Valid(s)
    ensures AllAcceptable(s, wants) ==> Granted(s.enabled, Changes(s.enabled, wants)) <= s.available.Keys
    ensures AllAcceptable(s, wants) && s.version >= 302 ==> NOTIFY in Granted(s.enabled, Changes(s.enabled, wants))
  {
    if AllAcceptable(s, wants) {
      var changes := Changes(s.enabled, wants);
      forall n | n in changes && changes[n] ensures n in s.available {
        GrantedMember(s.enabled, wants, n);
        var i :| 0 <= i < |wants| && wants[i] == Want(n, n !in s.enabled);
        assert Acceptable(s, wants[i]);
      }
      GrantedMember(s.enabled, wants, NOTIFY);
      assert s.version >= 302 ==> !Acceptable(s, Want(NOTIFY, false));
    }
  }

  // ---- The client's view is exact

  lemma {:induction false} TokenParses(name: string, value: string, version: int)
    requires IsName(name) && IsValue(value)
    ensures IsWord(Token(name, value, version))
    ensures ParseToken(Token(name, value, version)) == (name, if version >= 302 then value else "")
  {
    if version >= 302 && value != "" {
      FindFirst(name, "=", value);
      var t := name + "=" + value;
      assert t[..|name|] == name && t[|name| + 1..] == value;
    } else {
      FindAbsent(name, "=");
    }
  }

  predicate IsWord(s: string) { s != "" && ' ' !in s }

  lemma {:induction false} WordsJoin(words: seq<string>)
    requires forall i :: 0 <= i < |words| ==> IsWord(words[i])
    ensures Words(Join(words, " ")) == words
  {
    if words == [] {
      FindAbsent("", " ");
      assert Split("", " ") == [""];
      FilterNone([""], NonEmpty);
    } else {
      SplitJoin(words, ' ');
      FilterAll(words, NonEmpty);
    }
  }

  lemma {:induction false} ListingParses(available: map<string, string>, order: seq<string>, version: int, n: string)
    requires Clean(available) && forall i :: 0 <= i < |order| ==> order[i] in available
    ensures var parsed := ParseListing(Listing(available, order, version));
            && (n in parsed <==> n in order)
            && (n in order ==> n in available && parsed[n] == if version >= 302 then available[n] else "")
  {
    if order != [] {
      var init, last := order[..|order| - 1], order[|order| - 1];
      assert order == init + [last];
      ListingParses(available, init, version, n);
      ListingNext(available, init, last, version);
    }
  }

  /** One more capability in a listing. */
  lemma {:induction false} ListingNext(available: map<string, string>, init: seq<string>, last: string, version: int)
    requires Clean(available) && last in available && forall i :: 0 <= i < |init| ==> init[i] in available
    ensures ParseListing(Listing(available, init + [last], version))
         == ParseListing(Listing(available, init, version))[last := if version >= 302 then available[last] else ""]
  {
    var tokens := Listing(available, init + [last], version);
    assert tokens[..|init|] == Listing(available, init, version);
    TokenParses(last, available[last], version);
  }

  /** LS is read back exactly from version 302 on; an older version loses the values, if there are any. */
  lemma {:induction false} LsParses(available: map<string, string>, order: seq<string>, version: int)
    requires Clean(available) && SetOf(order) == available.Keys
    requires forall i :: 0 <= i < |order| ==> order[i] in available
    ensures ParseListing(Words(Join(Listing(available, order, version), " "))) == available
            <==> version >= 302 || forall n :: n in available ==> available[n] == ""
  {
    ListingWords(available, order, version);
    ListingKeys(available, order, version);
    var parsed := ParseListing(Listing(available, order, version));
    if version < 302 && exists n :: n in available && available[n] != "" {
      var n :| n in available && available[n] != "";
      assert parsed[n] != available[n];
    } else {
      assert parsed == available;
    }
  }

  lemma {:induction false} ListingWords(available: map<string, string>, order: seq<string>, version: int)
    requires Clean(available) && forall i :: 0 <= i < |order| ==> order[i] in available
    ensures Words(Join(Listing(available, order, version), " ")) == Listing(available, order, version)
  {
    var tokens := Listing(available, order, version);
    forall i | 0 <= i < |tokens| ensures IsWord(tokens[i]) {
      TokenParses(order[i], available[order[i]], version);
    }
    WordsJoin(tokens);
  }

  lemma {:induction false} ListingKeys(available: map<string, string>, order: seq<string>, version: int)
    requires Clean(available) && SetOf(order) == available.Keys
    requires forall i :: 0 <= i < |order| ==> order[i] in available
    ensures var parsed := ParseListing(Listing(available, order, version));
            && parsed.Keys == available.Keys
            && forall n :: n in available ==> parsed[n] == if version >= 302 then available[n] else ""
  {
    var parsed := ParseListing(Listing(available, order, version));
    forall n ensures (n in parsed <==> n in available)
        && (n in available ==> parsed[n] == if version >= 302 then available[n] else "") {
      ListingParses(available, order, version, n);
      assert n in order <==> n in SetOf(order);
    }
  }

  /** The last word for a name. */
  function LastFor(wants: seq<Want>, n: string): Option<bool> {
    if wants == [] then None
    else if wants[|wants| - 1].name == n then Some(wants[|wants| - 1].enable)
    else LastFor(wants[..|wants| - 1], n)
  }

  lemma {:induction false} AppliedMember(enabled: set<string>, wants: seq<Want>, n: string)
    ensures n in ApplyWants(enabled, wants) <==> (if LastFor(wants, n).Some? then LastFor(wants, n).value
        else n in enabled)
  {
    if wants != [] {
      AppliedMember(enabled, wants[..|wants| - 1], n);
    }
  }

  lemma {:induction false} LastForExists(wants: seq<Want>, n: string)
    ensures LastFor(wants, n).Some? ==> exists i :: 0 <= i < |wants| && wants[i] == Want(n, LastFor(wants, n).value)
    ensures LastFor(wants, n).None? ==> forall i :: 0 <= i < |wants| ==> wants[i].name != n
  {
    if wants != [] {
      var init, w := wants[..|wants| - 1], wants[|wants| - 1];
      LastForExists(init, n);
      if w.name == n {
        assert wants[|wants| - 1] == Want(n, w.enable);
      } else if LastFor(init, n).Some? {
        var i :| 0 <= i < |init| && init[i] == Want(n, LastFor(init, n).value);
        assert wants[i] == init[i];
      } else {
        forall i | 0 <= i < |wants| ensures wants[i].name != n {
          if i < |init| { assert wants[i] == init[i]; }
        }
      }
    }
  }

  /** A name that some word changes is changed by its last word too. */
  predicate NoRelapse(enabled: set<string>, wants: seq<Want>) {
    forall i :: 0 <= i < |wants| && wants[i].enable != (wants[i].name in enabled) ==>
                  LastFor(wants, wants[i].name) == Some(wants[i].enable)
  }

  /** A client applying an acknowledged request word by word ends up where the server is exactly when no name is first
      changed and then asked back. */
  lemma {:induction false} AckAgrees(enabled: set<string>, wants: seq<Want>)
    ensures ApplyWants(enabled, wants) == Granted(enabled, Changes(enabled, wants)) <==> NoRelapse(enabled, wants)
  {
    var granted, applied := Granted(enabled, Changes(enabled, wants)), ApplyWants(enabled, wants);
    if NoRelapse(enabled, wants) {
      forall n ensures n in applied <==> n in granted {
        AgreesOn(enabled, wants, n);
      }
      assert applied == granted;
    } else {
      var i :| 0 <= i < |wants| && wants[i].enable != (wants[i].name in enabled)
               && LastFor(wants, wants[i].name) != Some(wants[i].enable);
      var n := wants[i].name;
      GrantedMember(enabled, wants, n);
      assert wants[i] == Want(n, n !in enabled);
      AppliedMember(enabled, wants, n);
      LastForExists(wants, n);
      assert n in granted <==> n !in applied;
    }
  }

  lemma {:induction false} AgreesOn(enabled: set<string>, wants: seq<Want>, n: string)
    requires NoRelapse(enabled, wants)
    ensures n in ApplyWants(enabled, wants) <==> n in Granted(enabled, Changes(enabled, wants))
  {
    GrantedMember(enabled, wants, n);
    AppliedMember(enabled, wants, n);
    LastForExists(wants, n);
    if LastFor(wants, n) == Some(n !in enabled) {
      var i :| 0 <= i < |wants| && wants[i] == Want(n, n !in enabled);
    }
    if n in Changes(enabled, wants) {
      var i :| 0 <= i < |wants| && wants[i] == Want(n, n !in enabled);
      assert LastFor(wants, wants[i].name) == Some(wants[i].enable);
    }
  }

  /** Requests that name every capability once never relapse. */
  lemma {:induction false} DistinctNamesAgree(enabled: set<string>, wants: seq<Want>)
    requires forall i, j :: 0 <= i < j < |wants| ==> wants[i].name != wants[j].name
    ensures NoRelapse(enabled, wants)
  {
    forall i | 0 <= i < |wants| ensures LastFor(wants, wants[i].name) == Some(wants[i].enable) {
      LastForExists(wants, wants[i].name);
      var j :| 0 <= j < |wants| && wants[j] == Want(wants[i].name, LastFor(wants, wants[i].name).value);
      assert i == j;
    }
  }

  /** What a well-behaved client does: it does not lower the version below 302 and asks for no name back. */
  predicate Behaved(s: Server, e: Event) {
    match e
    case Ls(requested, _) => Version(s, requested) >= 302
    case Req(text) => var wants := ParseWants(Fields(text)); AllAcceptable(s, wants) ==> NoRelapse(s.enabled, wants)
    case _ => true
  }

  function View(s: Server): Mirror {
    Mirror(s.available, s.enabled)
  }

  lemma {:induction false} ReplayAppend(m: Mirror, out: seq<Reply>, r: Reply)
    ensures Replay(m, out + [r]) == Receive(Replay(m, out), r)
  {
    assert (out + [r])[..|out|] == out;
  }

  lemma {:induction false} LsMirrors(s: Server, e: Event, m: Mirror)
    requires Valid(s) && Possible(s, e) && Behaved(s, e) && e.Ls?
    requires Replay(m, s.out).enabled + {NOTIFY} == s.enabled + {NOTIFY}
    ensures Replay(m, Step(s, e).out) == View(Step(s, e))
  {
    var version := Version(s, e.requested);
    var available := Listed(s, version);
    ListedIsClean(s, version);
    LsParses(available, e.order, version);
    ReplayAppend(m, s.out, LS(Join(Listing(available, e.order, version), " ")));
  }

  lemma {:induction false} ReqMirrors(s: Server, e: Event, m: Mirror)
    requires Valid(s) && Behaved(s, e) && e.Req? && Replay(m, s.out) == View(s)
    ensures Replay(m, Step(s, e).out) == View(Step(s, e))
  {
    AckAgrees(s.enabled, ParseWants(Fields(e.text)));
    ReplayAppend(m, s.out, ACK(e.text));
    ReplayAppend(m, s.out, NAK(e.text));
  }

  lemma {:induction false} SetMirrors(s: Server, e: Event, m: Mirror)
    requires Valid(s) && Possible(s, e) && e.Set? && s.version >= 302 && Replay(m, s.out) == View(s)
    ensures Replay(m, Step(s, e).out) == View(Step(s, e))
  {
    TokenParses(e.name, e.value, s.version);
    ReplayAppend(m, s.out, NEW(Token(e.name, e.value, s.version)));
    if e.name in s.available && s.available[e.name] == e.value {
      assert s.available[e.name := e.value] == s.available;
    }
  }

  lemma {:induction false} UnsetMirrors(s: Server, e: Event, m: Mirror)
    requires Valid(s) && Possible(s, e) && e.Unset? && s.version >= 302 && Replay(m, s.out) == View(s)
    ensures Replay(m, Step(s, e).out) == View(Step(s, e))
  {
    ReplayAppend(m, s.out, DEL(e.name));
    if e.name !in s.available {
      assert s.available - {e.name} == s.available;
      assert s.enabled - {e.name} == s.enabled;
    }
  }

  /** One step, as the client follows it from the replies alone. */
  lemma {:induction false} StepMirrors(s: Server, e: Event, m: Mirror)
    requires Valid(s) && Possible(s, e) && Behaved(s, e) && s.version >= 302 && Replay(m, s.out) == View(s)
    ensures Replay(m, Step(s, e).out) == View(Step(s, e)) && Step(s, e).version >= 302
  {
    match e {
      case Ls(_, _) => LsMirrors(s, e, m);
      case List(order) => ReplayAppend(m, s.out, LIST(Join(order, " ")));
      case Req(_) => ReqMirrors(s, e, m);
      case Set(_, _) => SetMirrors(s, e, m);
      case Unset(_) => UnsetMirrors(s, e, m);
      case Register =>
    }
  }

  // ---- Whole runs

  /** A run of possible steps by a well-behaved client. */
  predicate Good(s: Server, events: seq<Event>)
    decreases |events|
  {
    events == [] || (Possible(s, events[0]) && Behaved(s, events[0]) && Good(Step(s, events[0]), events[1..]))
  }

  function Run(s: Server, events: seq<Event>): Server
    requires Good(s, events)
    decreases |events|
  {
    if events == [] then s else Run(Step(s, events[0]), events[1..])
  }

  lemma {:induction false} RunMirrors(s: Server, events: seq<Event>, m: Mirror)
    requires Valid(s) && s.version >= 302 && Replay(m, s.out) == View(s) && Good(s, events)
    ensures Replay(m, Run(s, events).out) == View(Run(s, events)) && Valid(Run(s, events))
    decreases |events|
  {
    if events != [] {
      StepKeeps(s, events[0]);
      StepMirrors(s, events[0], m);
      RunMirrors(Step(s, events[0]), events[1..], m);
    }
  }

  /** A client that starts with CAP LS 302 and follows only LS, ACK, NEW and DEL has, after every step of every run,
      exactly the server's available and enabled capabilities. */
  lemma {:induction false} MirrorIsExact(available: map<string, string>, events: seq<Event>)
    requires Clean(available) && NOTIFY in available
    requires var s := Server(available, {}, 0, false, []); events != [] && events[0].Ls? && Good(s, events)
    ensures var s' := Run(Server(available, {}, 0, false, []), events);
            && Replay(Mirror(map[], {}), s'.out) == View(s')
            && s'.enabled <= s'.available.Keys && NOTIFY in s'.enabled
  {
    var s, m := Server(available, {}, 0, false, []), Mirror(map[], {});
    StepKeeps(s, events[0]);
    LsMirrors(s, events[0], m);
    RunMirrors(Step(s, events[0]), events[1..], m);
    RunKeepsVersion(Step(s, events[0]), events[1..]);
  }

  lemma {:induction false} RunKeepsVersion(s: Server, events: seq<Event>)
    requires s.version >= 302 && Good(s, events)
    ensures Run(s, events).version >= 302
    decreases |events|
  {
    if events != [] {
      RunKeepsVersion(Step(s, events[0]), events[1..]);
    }
  }

  /** A name as a client may write it: one word, in lower case, without a dash in front. */
  predicate IsWritten(n: string) {
    n != "" && n[0] != '-' && ToLower(n) == n && ' ' !in n && Blanked(n) == n
  }

  /** A request for a name that asks it back. */
  function AskingBack(n: string): string {
    n + " " + ("-" + n)
  }

  lemma {:induction false} AskingBackWants(n: string)
    requires IsWritten(n)
    ensures ParseWants(Fields(AskingBack(n))) == [Want(n, true), Want(n, false)]
  {
    var back := "-" + n;
    var words := [n, back];
    assert words[1..] == [back] && Join(words, " ") == AskingBack(n);
    BackIsWritten(n);
    WordsJoin(words);
    assert back[1..] == n && "-" <= back && !("-" <= n);
  }

  lemma {:induction false} BackIsWritten(n: string)
    requires IsWritten(n)
    ensures Blanked(AskingBack(n)) == AskingBack(n) && ToLower("-" + n) == "-" + n
  {
    var text := AskingBack(n);
    forall i | 0 <= i < |text| ensures Blanked(text)[i] == text[i] {
      if i < |n| {
        assert Blanked(n)[i] == n[i] == text[i];
      } else if i >= |n| + 2 {
        assert Blanked(n)[i - |n| - 2] == n[i - |n| - 2] == text[i];
      }
    }
    forall i | 0 <= i < |n| ensures LowerChar(n[i]) == n[i] {
      assert ToLower(n)[i] == n[i];
    }
  }

  /** Asking for a name and asking it back in one request leaves the client wrong: the server acknowledges the request
      and enables the capability, the client takes it as not enabled. */
  lemma {:induction false} AskingBackDisagrees(s: Server, m: Mirror, n: string)
    requires IsWritten(n) && n in s.available && n !in s.enabled && n != INFORMATIONAL
    ensures var text := AskingBack(n);
            && Step(s, Req(text)).out == s.out + [ACK(text)]
            && n in Step(s, Req(text)).enabled && n !in Receive(m, ACK(text)).enabled
  {
    AskingBackWants(n);
    var wants := [Want(n, true), Want(n, false)];
    assert wants[..1] == [Want(n, true)] && wants[..1][..0] == [];
    assert Changes(s.enabled, wants[..1]) == map[n := true];
    assert |wants| == 2 && wants[1] == Want(n, false) && Changes(s.enabled, wants) == Changes(s.enabled, wants[..1]);
    assert AllAcceptable(s, wants);
  }

  // ---- The connection as the program runs it

  /** What an upstream connection offers; `registration` is its account registration value without "before-connect". */
  datatype Upstream = Upstream(enabled: set<string>, saslPlain: bool, registration: Option<string>)

  /** `order` goes through the capabilities, each once. */
  ghost predicate Enumerates(available: map<string, string>, order: seq<string>) {
    SetOf(order) == available.Keys && Distinct(order) && forall i :: 0 <= i < |order| ==> order[i] in available
  }

  /** Lists a registry in whatever order iterating over it gives. */
  method ListAll(available: map<string, string>, version: int) returns (caps: seq<string>)
    ensures exists order :: Enumerates(available, order) && caps == Listing(available, order, version)
  {
    caps := [];
    ghost var order: seq<string> := [];
    var todo := available.Keys;
    while todo != {}
      invariant todo <= available.Keys && SetOf(order) == available.Keys - todo && Distinct(order)
      invariant forall i :: 0 <= i < |order| ==> order[i] in available
      invariant caps == Listing(available, order, version)
    {
      var k :| k in todo;
      var v := available[k];
      SetOfAppend(order, k);
      assert k !in order by { assert k !in SetOf(order); }
      caps := caps + [if version >= 302 && v != "" then k + "=" + v else k];
      order := order + [k];
      todo := todo - {k};
    }
    assert Enumerates(available, order);
  }

  /** The same, with the order it happened to be. */
  method ListInOrder(available: map<string, string>, version: int) returns (caps: seq<string>, ghost order: seq<string>)
    ensures SetOf(order) == available.Keys && forall i :: 0 <= i < |order| ==> order[i] in available
    ensures caps == Listing(available, order, version)
  {
    caps := ListAll(available, version);
    order :| Enumerates(available, order) && caps == Listing(available, order, version);
  }

  /** Judges the words of a request one by one until one cannot be granted. */
  method JudgeWords(s: Server, words: seq<string>) returns (ack: bool, m: map<string, bool>)
    ensures ack <==> AllAcceptable(s, ParseWants(words))
    ensures ack ==> m == Changes(s.enabled, ParseWants(words))
  {
    ghost var wants := ParseWants(words);
    ack, m := true, map[];
    var i := 0;
    while i < |words|
      invariant 0 <= i <= |words| && ack
      invariant m == Changes(s.enabled, wants[..i]) && forall k :: 0 <= k < i ==> Acceptable(s, wants[k])
    {
      var w := ParseWant(words[i]);
      assert wants[..i + 1][..i] == wants[..i] && wants[i] == w;
      i := i + 1;
      if w.enable == (w.name in s.enabled) {
        continue;
      }
      if w.name !in s.available {
        return false, m;
      }
      if w.name == NOTIFY && s.version >= 302 && !w.enable {
        return false, m;
      }
      if w.name == INFORMATIONAL {
        return false, m;
      }
      m := m[w.name := w.enable];
    }
    assert wants[..i] == wants;
  }

  class DownstreamCaps {
    var available: map<string, string>
    var enabled: set<string>
    var capVersion: int
    var registered: bool
    var out: seq<Reply>

    function Now(): Server
      reads this
    {
      Server(available, enabled, capVersion, registered, out)
    }

    constructor (permanent: map<string, string>)
      requires Clean(permanent) && NOTIFY in permanent
      ensures Valid(Now()) && Now() == Server(permanent, {}, 0, false, [])
    {
      available, enabled, capVersion, registered, out := permanent, {}, 0, false, [];
    }

    /** CAP LS; the registry is listed in whatever order iterating over it gives. */
    method HandleLs(requested: Option<int>) returns (ghost order: seq<string>)
      modifies this
      ensures Possible(old(Now()), Ls(requested, order)) && Now() == Step(old(Now()), Ls(requested, order))
    {
      if requested.Some? {
        capVersion := requested.value;
      }
      if !registered && capVersion >= 302 {
        available := available + (map k | k in PASSTHROUGH :: "");
      }
      var caps: seq<string>;
      caps, order := ListInOrder(available, capVersion);
      out := out + [LS(Join(caps, " "))];
      if capVersion >= 302 {
        enabled := enabled + {NOTIFY};
      }
    }

    method Grant(m: map<string, bool>)
      modifies this`enabled
      ensures enabled == Granted(old(enabled), m)
    {
      var todo := m.Keys;
      while todo != {}
        invariant todo <= m.Keys
        invariant enabled == Granted(old(enabled), map n | n in m && n !in todo :: m[n])
      {
        var n :| n in todo;
        GrantMore(old(enabled), m, todo, n);
        enabled := if m[n] then enabled + {n} else enabled - {n};
        todo := todo - {n};
      }
      assert (map n | n in m && n !in todo :: m[n]) == m;
    }

    /** CAP REQ: the words are judged one by one, then granted together or not at all. */
    method HandleReq(text: string)
      modifies this`enabled, this`out
      ensures Now() == Step(old(Now()), Req(text))
    {
      var ack, m := JudgeWords(Now(), Fields(text));
      if ack {
        Grant(m);
      }
      out := out + [if ack then ACK(text) else NAK(text)];
    }

    method SetSupportedCap(name: string, value: string)
      requires Possible(Now(), Set(name, value))
      modifies this`available, this`out
      ensures Now() == Step(old(Now()), Set(name, value))
    {
      var changed := name !in available || available[name] != value;
      available := available[name := value];
      if NOTIFY !in enabled || !changed {
        return;
      }
      var token := name;
      if value != "" && capVersion >= 302 {
        token := name + "=" + value;
      }
      out := out + [NEW(token)];
    }

    method UnsetSupportedCap(name: string)
      requires Possible(Now(), Unset(name))
      modifies this`available, this`enabled, this`out
      ensures Now() == Step(old(Now()), Unset(name))
    {
      var hasPrev := name in available;
      available, enabled := available - {name}, enabled - {name};
      if NOTIFY !in enabled || !hasPrev {
        return;
      }
      out := out + [DEL(name)];
    }

    method Support(name: string, value: Option<string>)
      requires name != NOTIFY && (value.Some? ==> IsName(name) && IsValue(value.value))
      modifies this`available, this`enabled, this`out
      ensures value.Some? ==> Now() == Step(old(Now()), Set(name, value.value))
      ensures value.None? ==> Now() == Step(old(Now()), Unset(name))
    {
      if value.Some? {
        SetSupportedCap(name, value.value);
      } else {
        UnsetSupportedCap(name);
      }
    }

    /** Offers the passed-through capabilities the upstream server has enabled, in any order. */
    method UpdatePassthrough(passthrough: set<string>, uc: Option<Upstream>)
      requires Valid(Now()) && NOTIFY !in passthrough && forall c :: c in passthrough ==> IsName(c)
      modifies this`available, this`enabled, this`out
      ensures Follows(old(Now()), Now())
      ensures forall c :: c in passthrough ==> (c in available <==> uc.None? || c in uc.value.enabled)
      ensures forall c :: c !in passthrough ==> (c in available <==> c in old(available))
    {
      var todo := passthrough;
      while todo != {}
        invariant todo <= passthrough && Follows(old(Now()), Now())
        invariant forall c :: c !in passthrough ==> (c in available <==> c in old(available))
        invariant forall c :: c in passthrough && c !in todo ==> (c in available <==> uc.None? || c in uc.value.enabled)
      {
        var c :| c in todo;
        ghost var before := Now();
        Support(c, if uc.None? || c in uc.value.enabled then Some("") else None);
        FollowsStep(old(Now()), before, if uc.None? || c in uc.value.enabled then Set(c, "") else Unset(c));
        todo := todo - {c};
      }
    }

    /** Offers one capability or withdraws it. */
    method UpdateOne(name: string, value: Option<string>, ghost start: Server)
      requires Follows(start, Now()) && name != NOTIFY && IsName(name) && (value.Some? ==> IsValue(value.value))
      modifies this`available, this`enabled, this`out
      ensures Follows(start, Now())
      ensures name in available <==> value.Some?
      ensures forall c :: c != name ==> (c in available <==> c in old(available))
    {
      Support(name, value);
      FollowsStep(start, old(Now()), if value.Some? then Set(name, value.value) else Unset(name));
    }

    /** Brings the registry in line with the upstream connection. What a client can pass through is then exactly what
        the upstream server has enabled, and every exact mirror stays exact. */
    method UpdateSupportedCaps(uc: Option<Upstream>, hasNetwork: bool, chatHistory: bool)
      requires Valid(Now()) && (uc.Some? ==> hasNetwork)
      requires uc.Some? && uc.value.registration.Some? ==> IsValue(uc.value.registration.value)
      modifies this`available, this`enabled, this`out
      ensures Follows(old(Now()), Now())
      ensures forall c :: c in PASSTHROUGH ==> (c in available <==> uc.None? || c in uc.value.enabled)
      ensures SASL in available <==> (uc.Some? && uc.value.saslPlain) || (!hasNetwork && SASL in old(available))
      ensures REGISTRATION in available <==> uc.Some? && uc.value.registration.Some?
      ensures PLAYBACK in available <==> chatHistory && hasNetwork
    {
      PassthroughNames();
      PassthroughIsNotNotify();
      OthersAreNames();
      OthersAreOurs();
      UpdateNamed(PASSTHROUGH, SASL, REGISTRATION, PLAYBACK, "PLAIN,ANONYMOUS", uc, hasNetwork, chatHistory);
    }

    /** The update, given the names of the capabilities. */
    method UpdateNamed(passthrough: set<string>, sasl: string, registration: string, playback: string,
            mechanisms: string, uc: Option<Upstream>, hasNetwork: bool, chatHistory: bool)
      requires Valid(Now()) && (uc.Some? ==> hasNetwork)
      requires uc.Some? && uc.value.registration.Some? ==> IsValue(uc.value.registration.value)
      requires NOTIFY !in passthrough && forall c :: c in passthrough ==> IsName(c)
      requires IsName(sasl) && IsName(registration) && IsName(playback) && IsValue(mechanisms)
      requires sasl !in passthrough && registration !in passthrough && playback !in passthrough
      requires sasl != registration && sasl != playback && registration != playback
      requires NOTIFY != sasl && NOTIFY != registration && NOTIFY != playback
      modifies this`available, this`enabled, this`out
      ensures Follows(old(Now()), Now())
      ensures forall c :: c in passthrough ==> (c in available <==> uc.None? || c in uc.value.enabled)
      ensures sasl in available <==> (uc.Some? && uc.value.saslPlain) || (!hasNetwork && sasl in old(available))
      ensures registration in available <==> uc.Some? && uc.value.registration.Some?
      ensures playback in available <==> chatHistory && hasNetwork
    {
      UpdatePassthrough(passthrough, uc);
      UpdateFixed(sasl, registration, playback, mechanisms, uc, hasNetwork, chatHistory, old(Now()));
    }

    /** The capabilities with conditions of their own. */
    method UpdateFixed(sasl: string, registration: string, playback: string, mechanisms: string, uc: Option<Upstream>,
            hasNetwork: bool, chatHistory: bool, ghost start: Server)
      requires Follows(start, Now()) && (uc.Some? ==> hasNetwork)
      requires uc.Some? && uc.value.registration.Some? ==> IsValue(uc.value.registration.value)
      requires IsName(sasl) && IsName(registration) && IsName(playback) && IsValue(mechanisms)
      requires sasl != registration && sasl != playback && registration != playback
      requires NOTIFY != sasl && NOTIFY != registration && NOTIFY != playback
      modifies this`available, this`enabled, this`out
      ensures Follows(start, Now())
      ensures forall c :: c != sasl && c != registration && c != playback ==> (c in available <==> c in old(available))
      ensures sasl in available <==> (uc.Some? && uc.value.saslPlain) || (!hasNetwork && sasl in old(available))
      ensures registration in available <==> uc.Some? && uc.value.registration.Some?
      ensures playback in available <==> chatHistory && hasNetwork
    {
      if uc.Some? && uc.value.saslPlain {
        UpdateOne(sasl, Some(mechanisms), start);
      } else if hasNetwork {
        UpdateOne(sasl, None, start);
      }
      UpdateOne(registration, if uc.Some? then uc.value.registration else None, start);
      UpdateOne(playback, if chatHistory && hasNetwork then Some("") else None, start);
    }
  }

  const SASL: string := "sasl"
  const REGISTRATION: string := "draft/account-registration"
  const PLAYBACK: string := "draft/event-playback"

  lemma {:induction false} OthersAreNames()
    ensures IsName(SASL) && IsName(REGISTRATION) && IsName(PLAYBACK) && IsValue("PLAIN,ANONYMOUS")
  {
    assert IsName("draft/account-registration");
    assert IsName("draft/event-playback");
  }

  lemma {:induction false} OthersAreOurs()
    ensures SASL !in PASSTHROUGH && REGISTRATION !in PASSTHROUGH && PLAYBACK !in PASSTHROUGH
    ensures SASL != REGISTRATION && SASL != PLAYBACK && REGISTRATION != PLAYBACK
    ensures NOTIFY != SASL && NOTIFY != REGISTRATION && NOTIFY != PLAYBACK
  {
    assert |SASL| == 4 && |REGISTRATION| == 26 && |PLAYBACK| == 20 && |NOTIFY| == 10;
    assert forall c :: c in PASSTHROUGH && |c| == 20 ==> c[6] == 'm' || |c| != 20;
  }

  /** A valid state whose replies keep every exact mirror of `s` exact. */
  ghost predicate Follows(s: Server, s': Server) {
    && Valid(s') && s'.version == s.version
    && forall m: Mirror :: s.version >= 302 && Replay(m, s.out) == View(s) ==> Replay(m, s'.out) == View(s')
  }

  lemma {:induction false} FollowsStep(s: Server, s': Server, e: Event)
    requires Follows(s, s') && Possible(s', e) && (e.Set? || e.Unset?)
    ensures Follows(s, Step(s', e))
  {
    StepKeeps(s', e);
    forall m: Mirror | s.version >= 302 && Replay(m, s.out) == View(s)
        ensures Replay(m, Step(s', e).out) == View(Step(s', e)) {
      StepMirrors(s', e, m);
    }
  }

  lemma {:induction false} GrantMore(enabled: set<string>, m: map<string, bool>, todo: set<string>, n: string)
    requires n in todo && todo <= m.Keys
    ensures var before, after := Granted(enabled, map x | x in m && x !in todo :: m[x]),
        Granted(enabled, map x | x in m && x !in todo - {n} :: m[x]);
            after == if m[n] then before + {n} else before - {n}
  {
  }
}
