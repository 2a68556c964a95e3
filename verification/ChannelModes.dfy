/** Channel modes and member ranks as MODE messages change them (`irc.go`), and the mode string that reports them.
    Characters stand for bytes; a nickname is looked up by its case-mapped form. */
module ChannelModes {
  import opened Seqs
  import opened Text
  import opened CaseMapping
  import opened Memberships

  /** A: list modes; B: always with an argument; C: with an argument when set; D: without. */
  datatype ModeType = A | B | C | D

  /** What the network advertises: PREFIX, CHANMODES and CASEMAPPING. */
  datatype Config = Config(avail: seq<Membership>, types: map<char, ModeType>, cm: Mapping)

  /** A channel's modes, unknown until the network has listed them, and its members' ranks under their case-mapped
      nicknames. */
  datatype Ch = Ch(modes: Option<map<char, string>>, members: map<string, seq<Membership>>)

  datatype Outcome = Outcome(ch: Ch, ok: bool)

  function FindMode(avail: seq<Membership>, mode: char): (m: Option<Membership>)
    ensures m.Some? ==> m.value in avail && m.value.mode == mode
    ensures m.None? ==> forall i :: 0 <= i < |avail| ==> avail[i].mode != mode
  {
    if avail == [] then None else if avail[0].mode == mode then Some(avail[0]) else FindMode(avail[1..], mode)
  }

  function ChangeRank(avail: seq<Membership>, members: map<string, seq<Membership>>, nick: string, m: Membership,
          plus: bool): map<string, seq<Membership>> {
    if nick !in members then members
    else members[nick := if plus then Insert(avail, members[nick], m) else Without(members[nick], m)]
  }

  function SetMode(modes: Option<map<char, string>>, mode: char, value: string): Option<map<char, string>> {
    if modes.None? then None else Some(modes.value[mode := value])
  }

  function UnsetMode(modes: Option<map<char, string>>, mode: char): Option<map<char, string>> {
    if modes.None? then None else Some(modes.value - {mode})
  }

  predicate TakesArgument(t: ModeType, plus: bool) {
    t == B || (t == C && plus)
  }

  function ArgumentAt(args: seq<string>, next: nat): string {
    if next < |args| then args[next] else ""
  }

  /** A channel mode that is not a membership. */
  function ApplySetting(modes: Option<map<char, string>>, t: ModeType, plus: bool, mode: char, args: seq<string>,
          next: nat): Option<map<char, string>> {
    if t == A then modes
    else if !plus then UnsetMode(modes, mode)
    else SetMode(modes, mode, if TakesArgument(t, plus) then ArgumentAt(args, next) else "")
  }

  /** One mode character; no outcome when a membership lacks its argument. */
  function ApplyOne(cfg: Config, ch: Ch, plus: bool, mode: char, args: seq<string>, next: nat): Option<(Ch, nat)> {
    var m := FindMode(cfg.avail, mode);
    if m.Some? then
      if next >= |args| then None
      else Some((ch.(members := ChangeRank(cfg.avail, ch.members, Fold(cfg.cm, args[next]), m.value, plus)), next + 1))
    else if mode !in cfg.types then Some((ch, next))
    else
      var t := cfg.types[mode];
      Some((ch.(modes := ApplySetting(ch.modes, t, plus, mode, args, next)),
          if t == A || TakesArgument(t, plus) then next + 1 else next))
  }

  /** The mode string from some point on; what was applied before an error stays. */
  function Apply(cfg: Config, ch: Ch, plusMinus: Option<bool>, modeStr: string, args: seq<string>, next: nat): Outcome
    decreases |modeStr|
  {
    if modeStr == "" then Outcome(ch, true)
    else if modeStr[0] == '+' || modeStr[0] == '-' then Apply(cfg, ch, Some(modeStr[0] == '+'), modeStr[1..], args,
        next)
    else if plusMinus.None? then Outcome(ch, false)
    else
      var r := ApplyOne(cfg, ch, plusMinus.value, modeStr[0], args, next);
      if r.None? then Outcome(ch, false) else Apply(cfg, r.value.0, plusMinus, modeStr[1..], args, r.value.1)
  }

  class UpstreamChannel {
    const cfg: Config
    var modes: Option<map<char, string>>
    var members: map<string, MembershipSet>

    constructor (cfg: Config)
      ensures Valid() && this.cfg == cfg && State() == Ch(None, map[])
    {
      this.cfg, modes, members := cfg, None, map[];
    }

    /** No two members share a set. */
    ghost predicate Valid()
      reads this
    {
      forall j, k :: j in members && k in members && j != k ==> members[j] != members[k]
    }

    ghost function Ranks(): map<string, seq<Membership>>
      reads this`members, members.Values
    {
      map k | k in members :: members[k].l
    }

    ghost function State(): Ch
      reads this, members.Values
    {
      Ch(modes, Ranks())
    }

    method ChangeMember(nick: string, m: Membership, plus: bool)
      requires Valid()
      modifies members.Values
      ensures Ranks() == ChangeRank(cfg.avail, old(Ranks()), nick, m, plus)
    {
      if nick in members {
        var ms := members[nick];
        if plus {
          ms.Add(cfg.avail, m);
        } else {
          ms.Remove(m);
        }
        assert forall k :: k in members && k != nick ==> members[k] != ms && members[k].l == old(members[k].l);
      }
    }

    method ApplyChannelMode(mode: char, t: ModeType, plus: bool, args: seq<string>, next: nat)
      modifies this`modes
      ensures modes == ApplySetting(old(modes), t, plus, mode, args, next)
    {
      if t == B || (t == C && plus) {
        if plus {
          var argument := "";
          if next < |args| {
            argument := args[next];
          }
          if modes.Some? {
            modes := Some(modes.value[mode := argument]);
          }
        } else if modes.Some? {
          modes := Some(modes.value - {mode});
        }
      } else if t == C || t == D {
        if modes.Some? {
          modes := Some(if plus then modes.value[mode := ""] else modes.value - {mode});
        }
      }
    }

    method ApplyMode(mode: char, plus: bool, args: seq<string>, next: nat) returns (ok: bool, next': nat)
      requires Valid()
      modifies this`modes, members.Values
      ensures ApplyOne(cfg, old(State()), plus, mode, args, next) == if ok then Some((State(), next')) else None
      ensures !ok ==> State() == old(State())
    {
      for i := 0 to |cfg.avail|
        invariant forall k :: 0 <= k < i ==> cfg.avail[k].mode != mode
        invariant State() == old(State())
      {
        if cfg.avail[i].mode == mode {
          FindModeAt(cfg.avail, mode, i);
          if next >= |args| {
            return false, next;
          }
          var member := Casemap(cfg.cm, args[next]);
          ChangeMember(member, cfg.avail[i], plus);
          return true, next + 1;
        }
      }
      if mode !in cfg.types {
        return true, next;
      }
      var t := cfg.types[mode];
      ApplyChannelMode(mode, t, plus, args, next);
      return true, if t == A || TakesArgument(t, plus) then next + 1 else next;
    }

    /** `applyChannelModes`: an error leaves what came before it applied. */
    method ApplyChannelModes(modeStr: string, args: seq<string>) returns (ok: bool)
      requires Valid()
      modifies this`modes, members.Values
      ensures Outcome(State(), ok) == Apply(cfg, old(State()), None, modeStr, args, 0)
    {
      var next, plusMinus, i := 0, None, 0;
      assert modeStr[0..] == modeStr;
      while i < |modeStr|
        invariant 0 <= i <= |modeStr|
        invariant Apply(cfg, State(), plusMinus, modeStr[i..], args, next)
            == Apply(cfg, old(State()), None, modeStr, args, 0)
      {
        var mode := modeStr[i];
        assert modeStr[i..][1..] == modeStr[i + 1..];
        if mode == '+' || mode == '-' {
          plusMinus := Some(mode == '+');
        } else if plusMinus.None? {
          return false;
        } else {
          ok, next := ApplyMode(mode, plusMinus.value, args, next);
          if !ok {
            return;
          }
        }
        i := i + 1;
      }
      ok := true;
    }
  }

  lemma {:induction false} FindModeAt(avail: seq<Membership>, mode: char, i: nat)
    requires i < |avail| && avail[i].mode == mode && forall k :: 0 <= k < i ==> avail[k].mode != mode
    ensures FindMode(avail, mode) == Some(avail[i])
  {
    if i > 0 {
      FindModeAt(avail[1..], mode, i - 1);
    }
  }

  // ---- What mode changes keep

  /** A mode whose value a channel can have: not a list, not a membership. */
  predicate Setting(cfg: Config, mode: char) {
    mode != '+' && mode != '-' && FindMode(cfg.avail, mode).None? && mode in cfg.types && cfg.types[mode] != A
  }

  predicate ModesOk(cfg: Config, modes: map<char, string>) {
    forall c :: c in modes ==> Setting(cfg, c) && (cfg.types[c] == D ==> modes[c] == "")
  }

  ghost predicate RanksOk(avail: seq<Membership>, members: map<string, seq<Membership>>) {
    forall n :: n in members ==> Ranked(avail, members[n])
  }

  ghost predicate Ok(cfg: Config, ch: Ch) {
    (ch.modes.Some? ==> ModesOk(cfg, ch.modes.value)) && RanksOk(cfg.avail, ch.members)
  }

  lemma {:induction false} ApplyOneKeeps(cfg: Config, ch: Ch, plus: bool, mode: char, args: seq<string>, next: nat)
    requires Ranking(cfg.avail) && Ok(cfg, ch) && mode != '+' && mode != '-'
        && ApplyOne(cfg, ch, plus, mode, args, next).Some?
    ensures var ch' := ApplyOne(cfg, ch, plus, mode, args, next).value.0;
            Ok(cfg, ch') && ch'.modes.Some? == ch.modes.Some? && ch'.members.Keys == ch.members.Keys
  {
    var m := FindMode(cfg.avail, mode);
    if m.Some? {
      var nick := Fold(cfg.cm, args[next]);
      if nick in ch.members {
        ChangesRanked(cfg.avail, ch.members[nick], m.value);
      }
    }
  }

  /** Whatever a MODE message holds, the map stays free of list modes and memberships and of values for D modes,
      unknown modes stay unknown, and every member keeps a ranked set. */
  lemma {:induction false} ApplyKeeps(cfg: Config, ch: Ch, plusMinus: Option<bool>, modeStr: string, args: seq<string>,
          next: nat)
    requires Ranking(cfg.avail) && Ok(cfg, ch)
    ensures var ch' := Apply(cfg, ch, plusMinus, modeStr, args, next).ch;
            Ok(cfg, ch') && ch'.modes.Some? == ch.modes.Some? && ch'.members.Keys == ch.members.Keys
    decreases |modeStr|
  {
    if modeStr != "" {
      if modeStr[0] == '+' || modeStr[0] == '-' {
        ApplyKeeps(cfg, ch, Some(modeStr[0] == '+'), modeStr[1..], args, next);
      } else if plusMinus.Some? {
        var r := ApplyOne(cfg, ch, plusMinus.value, modeStr[0], args, next);
        if r.Some? {
          ApplyOneKeeps(cfg, ch, plusMinus.value, modeStr[0], args, next);
          ApplyKeeps(cfg, r.value.0, plusMinus, modeStr[1..], args, r.value.1);
        }
      }
    }
  }

  /** What happens to a channel: MODE, a member listed in a NAMES reply, JOIN, a member leaving, and the modes being
      listed. */
  datatype Event =
    | Mode(modeStr: string, args: seq<string>)
    | Listed(name: string)
    | Joined(nick: string)
    | Gone(nick: string)
    | ModesListed

  function Step(cfg: Config, ch: Ch, e: Event): Ch {
    match e
    case Mode(modeStr, args) => Apply(cfg, ch, None, modeStr, args, 0).ch
    case Listed(name) => var (ms, nick) := Parse(cfg.avail, name); ch.(members := ch.members[Fold(cfg.cm, nick) := ms])
    case Joined(nick) => ch.(members := ch.members[Fold(cfg.cm, nick) := []])
    case Gone(nick) => ch.(members := ch.members - {Fold(cfg.cm, nick)})
    case ModesListed => ch.(modes := Some(map[]))
  }

  function Run(cfg: Config, ch: Ch, events: seq<Event>): Ch
    decreases |events|
  {
    if events == [] then ch else Run(cfg, Step(cfg, ch, events[0]), events[1..])
  }

  lemma {:induction false} StepKeeps(cfg: Config, ch: Ch, e: Event)
    requires Ranking(cfg.avail) && Ok(cfg, ch)
    ensures Ok(cfg, Step(cfg, ch, e))
  {
    match e {
      case Mode(modeStr, args) => ApplyKeeps(cfg, ch, None, modeStr, args, 0);
      case Listed(name) => ParseRanked(cfg.avail, name);
      case Joined(nick) => ParseRanked(cfg.avail, "");
      case Gone(_) =>
      case ModesListed =>
    }
  }

  /** Through any sequence of these, ranks stay ordered and modes stay settings. */
  lemma {:induction false} RunKeeps(cfg: Config, events: seq<Event>, ch: Ch)
    requires Ranking(cfg.avail) && Ok(cfg, ch)
    ensures Ok(cfg, Run(cfg, ch, events))
    decreases |events|
  {
    if events != [] {
      StepKeeps(cfg, ch, events[0]);
      RunKeeps(cfg, events[1..], Step(cfg, ch, events[0]));
    }
  }

  lemma {:induction false} FindModeOf(avail: seq<Membership>, m: Membership)
    requires Ranking(avail) && m in avail
    ensures FindMode(avail, m.mode) == Some(m)
  {
    var i :| 0 <= i < |avail| && avail[i] == m;
    FindModeAt(avail, m.mode, i);
  }

  function Sign(plus: bool): char {
    if plus then '+' else '-'
  }

  /** A membership mode inserts into or deletes from the ranks of the member it names, and changes nothing else. */
  lemma {:induction false} MembershipActs(cfg: Config, ch: Ch, m: Membership, nick: string, plus: bool)
    requires Ranking(cfg.avail) && Ok(cfg, ch) && m in cfg.avail && m.mode != '+' && m.mode != '-'
    ensures var r, n := Apply(cfg, ch, None, [Sign(plus), m.mode], [nick], 0), Fold(cfg.cm, nick);
            && r.ok && r.ch.modes == ch.modes && r.ch.members.Keys == ch.members.Keys
            && (forall k :: k in ch.members && k != n ==> r.ch.members[k] == ch.members[k])
            && (n in ch.members ==>
                SetOf(r.ch.members[n]) == if plus then SetOf(ch.members[n]) + {m} else SetOf(ch.members[n]) - {m})
  {
    var s, n := [Sign(plus), m.mode], Fold(cfg.cm, nick);
    FindModeOf(cfg.avail, m);
    ApplyHead(cfg, ch, None, s, [nick], 0);
    ApplyHead(cfg, ch, Some(plus), [m.mode], [nick], 0);
    if n in ch.members {
      var l := ch.members[n];
      RankedWithin(cfg.avail, l);
      InsertRanks(cfg.avail, l, m);
      RankOf(cfg.avail, SetOf(l) + {m});
      WithoutRanks(cfg.avail, l, m);
      RankOf(cfg.avail, SetOf(l) - {m});
    }
  }

  /** Setting and then unsetting a mode leaves it unset and everything else as it was, whatever the arguments. */
  lemma {:induction false} SetUnset(cfg: Config, ch: Ch, mode: char, args: seq<string>)
    requires Setting(cfg, mode) && ch.modes.Some?
    ensures Apply(cfg, ch, None, ['+', mode, '-', mode], args, 0)
        == Outcome(ch.(modes := Some(ch.modes.value - {mode})), true)
  {
    var s := ['+', mode, '-', mode];
    var (ch1, next1) := ApplyOne(cfg, ch, true, mode, args, 0).value;
    var (ch2, next2) := ApplyOne(cfg, ch1, false, mode, args, next1).value;
    ApplyHead(cfg, ch, None, s, args, 0);
    ApplyHead(cfg, ch, Some(true), s[1..], args, 0);
    ApplyHead(cfg, ch1, Some(true), s[2..], args, next1);
    ApplyHead(cfg, ch1, Some(false), s[3..], args, next1);
    assert s[1..][1..] == s[2..] && s[2..][1..] == s[3..] && s[3..][1..] == "";
    assert ch2.modes.value == ch.modes.value - {mode};
  }

  lemma {:induction false} ApplyHead(cfg: Config, ch: Ch, plusMinus: Option<bool>, s: string, args: seq<string>,
          next: nat)
    requires s != ""
    ensures s[0] == '+' || s[0] == '-' ==> Apply(cfg, ch, plusMinus, s, args, next) == Apply(cfg, ch,
        Some(s[0] == '+'), s[1..], args, next)
    ensures s[0] != '+' && s[0] != '-' && plusMinus.Some? ==>
      match ApplyOne(cfg, ch, plusMinus.value, s[0], args, next)
      case None => Apply(cfg, ch, plusMinus, s, args, next) == Outcome(ch, false)
      case Some((ch', next')) =>
          Apply(cfg, ch, plusMinus, s, args, next) == Apply(cfg, ch', plusMinus, s[1..], args, next')
  {
  }

  // ---- Reporting the modes

  /** The modes of `order` that have a value, or that have none. */
  function Pick(modes: map<char, string>, order: string, valued: bool): (r: string)
    requires forall i :: 0 <= i < |order| ==> order[i] in modes
    ensures forall i :: 0 <= i < |r| ==> r[i] in order && r[i] in modes && (modes[r[i]] != "") == valued
  {
    if order == "" then ""
    else
      var c := order[|order| - 1];
      Pick(modes, order[..|order| - 1], valued) + (if (modes[c] != "") == valued then [c] else "")
  }

  function ValuesOf(modes: map<char, string>, picked: string): (r: seq<string>)
    requires forall i :: 0 <= i < |picked| ==> picked[i] in modes
    ensures |r| == |picked| && forall i :: 0 <= i < |picked| ==> r[i] == modes[picked[i]]
  {
    seq(|picked|, i requires 0 <= i < |picked| => modes[picked[i]])
  }

  function Encode(s: string): string {
    if s == "" then "" else Encode(s[..|s| - 1]) + EncodeByte(s[|s| - 1])
  }

  /** `order` goes through the modes, each once. */
  predicate Enumerates(modes: map<char, string>, order: string) {
    Distinct(order) && (forall c :: c in modes <==> c in order)
  }

  /** The modes with values, then those without. */
  function Body(modes: map<char, string>, order: string): string
    requires Enumerates(modes, order)
  {
    Encode(Pick(modes, order, true)) + Encode(Pick(modes, order, false))
  }

  function ModeString(modes: map<char, string>, order: string): string
    requires Enumerates(modes, order)
  {
    "+" + Body(modes, order)
  }

  ghost predicate Reported(modes: map<char, string>, order: string, withValues: string, withoutValues: string,
          parameters: seq<string>)
    requires forall i :: 0 <= i < |order| ==> order[i] in modes
  {
    && withValues == Encode(Pick(modes, order, true)) && withoutValues == Encode(Pick(modes, order, false))
    && parameters == ValuesOf(modes, Pick(modes, order, true))
  }

  /** `order` has been through all modes but `todo`, each once. */
  ghost predicate Visited(modes: map<char, string>, order: string, todo: set<char>) {
    && todo <= modes.Keys && Distinct(order) && (forall c :: c in order ==> c in modes && c !in todo)
    && forall c :: c in modes ==> c in order || c in todo
  }

  lemma {:induction false} VisitNext(modes: map<char, string>, order: string, todo: set<char>, mode: char)
    requires Visited(modes, order, todo) && mode in todo
    ensures Visited(modes, order + [mode], todo - {mode})
  {
    forall c ensures c in order + [mode] <==> c in order || c == mode {
    }
  }

  /** `Format`, in whatever order iterating over the modes gives. */
  method Format(modes: map<char, string>) returns (modeString: string, parameters: seq<string>)
    ensures exists order ::
        Enumerates(modes, order) && modeString == ModeString(modes, order)
        && parameters == ValuesOf(modes, Pick(modes, order, true))
  {
    var withValues, withoutValues := "", "";
    ghost var order: string := "";
    parameters := [];
    var todo := modes.Keys;
    while todo != {}
      invariant Visited(modes, order, todo) && Reported(modes, order, withValues, withoutValues, parameters)
    {
      var mode :| mode in todo;
      var value := modes[mode];
      VisitNext(modes, order, todo, mode);
      Reports(modes, order, mode, withValues, withoutValues, parameters);
      if value != "" {
        withValues := withValues + EncodeByte(mode);
        parameters := parameters + [value];
      } else {
        withoutValues := withoutValues + EncodeByte(mode);
      }
      order := order + [mode];
      todo := todo - {mode};
    }
    modeString := "+" + withValues + withoutValues;
    assert modeString == "+" + (withValues + withoutValues);
    assert Enumerates(modes, order);
  }

  lemma {:induction false} PickNext(modes: map<char, string>, order: string, mode: char, valued: bool)
    requires (forall i :: 0 <= i < |order| ==> order[i] in modes) && mode in modes
    ensures Pick(modes, order + [mode], valued) ==
            if (modes[mode] != "") == valued then Pick(modes, order, valued) + [mode] else Pick(modes, order, valued)
  {
    assert (order + [mode])[..|order|] == order;
  }

  /** What one more mode adds to the two strings and the parameters. */
  lemma {:induction false} Reports(modes: map<char, string>, order: string, mode: char, withValues: string,
          withoutValues: string, parameters: seq<string>)
    requires (forall i :: 0 <= i < |order| ==> order[i] in modes) && mode in modes
    requires Reported(modes, order, withValues, withoutValues, parameters)
    ensures modes[mode] != "" ==> Reported(modes, order + [mode], withValues + EncodeByte(mode), withoutValues,
        parameters + [modes[mode]])
    ensures modes[mode] == "" ==> Reported(modes, order + [mode], withValues, withoutValues + EncodeByte(mode),
        parameters)
  {
    PickNext(modes, order, mode, true);
    PickNext(modes, order, mode, false);
    EncodeNext(Pick(modes, order, modes[mode] != ""), mode);
    ValuesNext(modes, Pick(modes, order, true), mode);
  }

  lemma {:induction false} ValuesNext(modes: map<char, string>, picked: string, mode: char)
    requires (forall i :: 0 <= i < |picked| ==> picked[i] in modes) && mode in modes
    ensures ValuesOf(modes, picked + [mode]) == ValuesOf(modes, picked) + [modes[mode]]
  {
  }

  lemma {:induction false} EncodeNext(s: string, c: char)
    ensures Encode(s + [c]) == Encode(s) + EncodeByte(c)
  {
    assert (s + [c])[..|s|] == s;
  }

  // ---- Round trip

  predicate Ascii7(s: string) {
    forall i :: 0 <= i < |s| ==> s[i] as int < 0x80
  }

  lemma {:induction false} EncodeAscii(s: string)
    requires Ascii7(s)
    ensures Encode(s) == s
  {
    if s != "" {
      EncodeAscii(s[..|s| - 1]);
      assert s == s[..|s| - 1] + [s[|s| - 1]];
    }
  }

  function Assign(modes: map<char, string>, keys: string, values: seq<string>): map<char, string>
    requires |keys| == |values|
    decreases |keys|
  {
    if keys == "" then modes else Assign(modes[keys[0] := values[0]], keys[1..], values[1..])
  }

  lemma {:induction false} AssignGet(modes: map<char, string>, keys: string, values: seq<string>, c: char)
    requires |keys| == |values| && Distinct(keys)
    ensures c in Assign(modes, keys, values) <==> c in modes || c in keys
    ensures forall i :: 0 <= i < |keys| && keys[i] == c ==> Assign(modes, keys, values)[c] == values[i]
    ensures c !in keys && c in modes ==> Assign(modes, keys, values)[c] == modes[c]
    decreases |keys|
  {
    if keys != "" {
      AssignGet(modes[keys[0] := values[0]], keys[1..], values[1..], c);
      assert c in keys <==> c == keys[0] || c in keys[1..];
    }
  }

  /** Setting modes that take an argument, while there are arguments. */
  lemma {:induction false} ApplyValued(cfg: Config, modes: map<char, string>, members: map<string, seq<Membership>>,
          keys: string, rest: string, args: seq<string>, next: nat)
    requires next + |keys| <= |args| && forall i :: 0 <= i < |keys| ==> Setting(cfg, keys[i]) && cfg.types[keys[i]] != D
    ensures Apply(cfg, Ch(Some(modes), members), Some(true), keys + rest, args, next)
         == Apply(cfg, Ch(Some(Assign(modes, keys, args[next..next + |keys|])), members), Some(true), rest, args,
             next + |keys|)
    decreases |keys|
  {
    if keys == "" {
      assert keys + rest == rest;
    } else {
      var c := keys[0];
      assert (keys + rest)[0] == c && (keys + rest)[1..] == keys[1..] + rest;
      ApplyValued(cfg, modes[c := args[next]], members, keys[1..], rest, args, next + 1);
      assert args[next..next + |keys|][1..] == args[next + 1..next + 1 + |keys[1..]|];
    }
  }

  function Blanks(n: nat): (r: seq<string>)
    ensures |r| == n && forall i :: 0 <= i < n ==> r[i] == ""
  {
    seq(n, i => "")
  }

  /** Setting modes once the arguments are used up. */
  lemma {:induction false} ApplyBare(cfg: Config, modes: map<char, string>, members: map<string, seq<Membership>>,
          keys: string, args: seq<string>, next: nat)
    requires |args| <= next && forall i :: 0 <= i < |keys| ==> Setting(cfg, keys[i])
    ensures Apply(cfg, Ch(Some(modes), members), Some(true), keys, args, next)
         == Outcome(Ch(Some(Assign(modes, keys, Blanks(|keys|))), members), true)
    decreases |keys|
  {
    if keys != "" {
      var c := keys[0];
      ApplyBare(cfg, modes[c := ""], members, keys[1..], args,
          if TakesArgument(cfg.types[c], true) then next + 1 else next);
      assert Blanks(|keys|)[1..] == Blanks(|keys[1..]|);
    }
  }

  lemma {:induction false} PickDistinct(modes: map<char, string>, order: string, valued: bool)
    requires Distinct(order) && forall i :: 0 <= i < |order| ==> order[i] in modes
    ensures Distinct(Pick(modes, order, valued))
  {
    if order != "" {
      var init, last := order[..|order| - 1], order[|order| - 1];
      PickDistinct(modes, init, valued);
      assert last !in init && last !in Pick(modes, init, valued);
    }
  }

  lemma {:induction false} PickHas(modes: map<char, string>, order: string, valued: bool, i: nat)
    requires (forall j :: 0 <= j < |order| ==> order[j] in modes) && i < |order| && (modes[order[i]] != "") == valued
    ensures order[i] in Pick(modes, order, valued)
  {
    if i < |order| - 1 {
      PickHas(modes, order[..|order| - 1], valued, i);
    }
  }

  lemma {:induction false} PickIs(modes: map<char, string>, order: string, valued: bool)
    requires Distinct(order) && forall i :: 0 <= i < |order| ==> order[i] in modes
    ensures Distinct(Pick(modes, order, valued))
    ensures forall c :: c in order && (modes[c] != "") == valued ==> c in Pick(modes, order, valued)
  {
    PickDistinct(modes, order, valued);
    forall c | c in order && (modes[c] != "") == valued ensures c in Pick(modes, order, valued) {
      var i :| 0 <= i < |order| && order[i] == c;
      PickHas(modes, order, valued, i);
    }
  }

  /** The picked modes assigned to an empty map give the modes back. */
  lemma {:induction false} AssignAll(modes: map<char, string>, order: string)
    requires Enumerates(modes, order)
    ensures var w, n := Pick(modes, order, true), Pick(modes, order, false);
            Assign(Assign(map[], w, ValuesOf(modes, w)), n, Blanks(|n|)) == modes
  {
    var w, n := Pick(modes, order, true), Pick(modes, order, false);
    PickIs(modes, order, true);
    PickIs(modes, order, false);
    var first := Assign(map[], w, ValuesOf(modes, w));
    forall c ensures c in Assign(first, n, Blanks(|n|)) <==> c in modes {
      AssignGet(map[], w, ValuesOf(modes, w), c);
      AssignGet(first, n, Blanks(|n|), c);
    }
    forall c | c in modes ensures Assign(first, n, Blanks(|n|))[c] == modes[c] {
      AssignGet(map[], w, ValuesOf(modes, w), c);
      AssignGet(first, n, Blanks(|n|), c);
    }
  }

  lemma {:induction false} ApplyBoth(cfg: Config, members: map<string, seq<Membership>>, w: string, n: string,
          args: seq<string>)
    requires |args| == |w| && (forall i :: 0 <= i < |w| ==> Setting(cfg, w[i]) && cfg.types[w[i]] != D)
    requires forall i :: 0 <= i < |n| ==> Setting(cfg, n[i])
    ensures Apply(cfg, Ch(Some(map[]), members), None, "+" + w + n, args, 0)
         == Outcome(Ch(Some(Assign(Assign(map[], w, args), n, Blanks(|n|))), members), true)
  {
    var s := "+" + w + n;
    assert s[0] == '+' && s[1..] == w + n;
    ApplyValued(cfg, map[], members, w, n, args, 0);
    assert args[0..|w|] == args;
    ApplyBare(cfg, Assign(map[], w, args), members, n, args, |w|);
  }

  lemma {:induction false} PicksEncoded(modes: map<char, string>, order: string)
    requires Enumerates(modes, order) && Ascii7(order)
    ensures ModeString(modes, order) == "+" + Pick(modes, order, true) + Pick(modes, order, false)
  {
    var w, n := Pick(modes, order, true), Pick(modes, order, false);
    EncodeAscii(w);
    EncodeAscii(n);
    assert "+" + (w + n) == "+" + w + n;
  }

  /** Applying the reported mode string and parameters to a channel without modes gives the same modes back, without an
      error and without touching a member. */
  ghost predicate ComesBack(cfg: Config, modes: map<char, string>, order: string, members: map<string, seq<Membership>>)
    requires Enumerates(modes, order)
  {
    Apply(cfg, Ch(Some(map[]), members), None, ModeString(modes, order), ValuesOf(modes, Pick(modes, order, true)), 0)
    == Outcome(Ch(Some(modes), members), true)
  }

  /** ASCII modes come back, whatever order they are reported in. That includes modes whose argument is unknown. */
  lemma {:induction false} AsciiComesBack(cfg: Config, modes: map<char, string>, order: string,
          members: map<string, seq<Membership>>)
    requires ModesOk(cfg, modes) && Enumerates(modes, order) && Ascii7(order)
    ensures ComesBack(cfg, modes, order, members)
  {
    var w, n := Pick(modes, order, true), Pick(modes, order, false);
    PicksEncoded(modes, order);
    ApplyBoth(cfg, members, w, n, ValuesOf(modes, w));
    AssignAll(modes, order);
  }

  // ---- Modes outside ASCII: exactly when they come back

  /** Setting `mode` takes an argument, if one is left. */
  predicate Takes(cfg: Config, mode: char) {
    FindMode(cfg.avail, mode).Some? || (mode in cfg.types && cfg.types[mode] != D)
  }

  /** How many arguments setting all of `s` takes. */
  function Taken(cfg: Config, s: string): nat {
    if s == "" then 0 else Taken(cfg, s[..|s| - 1]) + (if Takes(cfg, s[|s| - 1]) then 1 else 0)
  }

  /** Setting `mode` with `next` arguments taken before says what `modes` says, or nothing: it is not a membership, it
      does not use up an argument for a list, and as a setting it has its value in `modes`. */
  predicate Agrees(cfg: Config, modes: map<char, string>, mode: char, args: seq<string>, next: nat) {
    && FindMode(cfg.avail, mode).None?
    && (mode in cfg.types ==>
          if cfg.types[mode] == A then next >= |args|
          else mode in modes && modes[mode] == if cfg.types[mode] == D then "" else ArgumentAt(args, next))
  }

  /** Every byte of the string agrees with the modes, and every mode is a byte of it. */
  predicate Spells(cfg: Config, modes: map<char, string>, s: string, args: seq<string>) {
    && (forall i :: 0 <= i < |s| ==> Agrees(cfg, modes, s[i], args, Taken(cfg, s[..i])))
    && forall c :: c in modes ==> c in s
  }

  /** The rest of the string agrees, byte by byte. */
  ghost predicate RestAgrees(cfg: Config, modes: map<char, string>, rest: string, args: seq<string>, next: nat)
    decreases |rest|
  {
    rest == "" ||
    (Agrees(cfg, modes, rest[0], args, next)
     && RestAgrees(cfg, modes, rest[1..], args, next + (if Takes(cfg, rest[0]) then 1 else 0)))
  }

  lemma {:induction false} TakenNext(cfg: Config, s: string, i: nat)
    requires i < |s|
    ensures Taken(cfg, s[..i + 1]) == Taken(cfg, s[..i]) + if Takes(cfg, s[i]) then 1 else 0
  {
    assert s[..i + 1][..i] == s[..i];
  }

  lemma {:induction false} RestIsAll(cfg: Config, modes: map<char, string>, s: string, args: seq<string>, i: nat)
    requires i <= |s|
    ensures RestAgrees(cfg, modes, s[i..], args, Taken(cfg, s[..i]))
            <==> forall j :: i <= j < |s| ==> Agrees(cfg, modes, s[j], args, Taken(cfg, s[..j]))
    decreases |s| - i
  {
    if i < |s| {
      TakenNext(cfg, s, i);
      assert s[i..][1..] == s[i + 1..];
      RestIsAll(cfg, modes, s, args, i + 1);
    }
  }

  predicate NoSigns(s: string) {
    '+' !in s && '-' !in s
  }

  /** What setting one byte that agrees does. */
  lemma {:induction false} AgreeingStep(cfg: Config, modes: map<char, string>, m: map<char, string>,
          members: map<string, seq<Membership>>, mode: char, args: seq<string>, next: nat)
    requires ModesOk(cfg, modes) && Agrees(cfg, modes, mode, args, next) && mode != '+' && mode != '-'
    ensures var m' := if Setting(cfg, mode) then m[mode := modes[mode]] else m;
            ApplyOne(cfg, Ch(Some(m), members), true, mode, args, next)
            == Some((Ch(Some(m'), members), next + if Takes(cfg, mode) then 1 else 0))
  {
  }

  /** A map that agrees with `modes` on its keys. */
  predicate PartOf(m: map<char, string>, modes: map<char, string>) {
    forall c :: c in m ==> c in modes && m[c] == modes[c]
  }

  /** Setting bytes that agree assigns nothing else. */
  lemma {:induction false} AgreeingApplies(cfg: Config, modes: map<char, string>, m: map<char, string>,
          members: map<string, seq<Membership>>, rest: string, args: seq<string>, next: nat)
    requires ModesOk(cfg, modes) && PartOf(m, modes) && NoSigns(rest) && RestAgrees(cfg, modes, rest, args, next)
    ensures var r := Apply(cfg, Ch(Some(m), members), Some(true), rest, args, next);
            && r.ok && r.ch.modes.Some? && r.ch.members == members
            && PartOf(r.ch.modes.value, modes)
            && forall c :: c in r.ch.modes.value <==> c in m || (c in rest && c in modes)
    decreases |rest|
  {
    if rest != "" {
      var mode := rest[0];
      AgreeingStep(cfg, modes, m, members, mode, args, next);
      var m' := if Setting(cfg, mode) then m[mode := modes[mode]] else m;
      AgreeingApplies(cfg, modes, m', members, rest[1..], args, next + if Takes(cfg, mode) then 1 else 0);
      assert rest == [mode] + rest[1..];
    }
  }

  function Valued(m: map<char, string>): set<char> {
    set c | c in m && m[c] != ""
  }

  function Left(args: seq<string>, next: nat): nat {
    if next < |args| then |args| - next else 0
  }

  /** One byte makes at most one more mode have a value, and only by taking an argument. */
  lemma {:induction false} StepBudget(cfg: Config, m: map<char, string>, members: map<string, seq<Membership>>,
          mode: char, args: seq<string>, next: nat)
    requires ApplyOne(cfg, Ch(Some(m), members), true, mode, args, next).Some?
    ensures var (ch, next') := ApplyOne(cfg, Ch(Some(m), members), true, mode, args, next).value;
            && ch.modes.Some? && next' == next + (if Takes(cfg, mode) then 1 else 0)
            && m.Keys <= ch.modes.value.Keys
            && |Valued(ch.modes.value)| + Left(args, next') <= |Valued(m)| + Left(args, next)
  {
    var (ch, next') := ApplyOne(cfg, Ch(Some(m), members), true, mode, args, next).value;
    ValuedSet(m, mode, if TakesArgument(if mode in cfg.types then cfg.types[mode] else A, true)
        then ArgumentAt(args, next) else "");
  }

  lemma {:induction false} ValuedSet(m: map<char, string>, mode: char, value: string)
    ensures Valued(m[mode := value]) == if value != "" then Valued(m) + {mode} else Valued(m) - {mode}
    ensures value != "" ==> |Valued(m[mode := value])| == |Valued(m)| + if mode in Valued(m) then 0 else 1
    ensures value == "" ==> |Valued(m[mode := value])| == |Valued(m)| - if mode in Valued(m) then 1 else 0
  {
    assert Valued(m[mode := value]) == if value != "" then Valued(m) + {mode} else Valued(m) - {mode};
  }

  /** So does a whole string, and modes are only added. */
  lemma {:induction false} Budget(cfg: Config, m: map<char, string>, members: map<string, seq<Membership>>,
          rest: string, args: seq<string>, next: nat)
    requires NoSigns(rest)
    ensures var r := Apply(cfg, Ch(Some(m), members), Some(true), rest, args, next).ch.modes;
            r.Some? && m.Keys <= r.value.Keys && |Valued(r.value)| <= |Valued(m)| + Left(args, next)
    decreases |rest|
  {
    if rest != "" {
      var r := ApplyOne(cfg, Ch(Some(m), members), true, rest[0], args, next);
      if r.Some? {
        StepBudget(cfg, m, members, rest[0], args, next);
        var (ch, next') := r.value;
        Budget(cfg, ch.modes.value, ch.members, rest[1..], args, next');
      }
    }
  }

  /** `modes` has all the values of `m`. */
  predicate HasValues(modes: map<char, string>, m: map<char, string>) {
    forall c :: c in Valued(m) ==> c in modes && modes[c] == m[c]
  }

  lemma {:induction false} SameSize(a: set<char>, b: set<char>)
    requires a <= b && |a| == |b|
    ensures a == b
  {
    assert b == (b - a) + a;
    assert |b - a| == 0;
  }

  /** When a byte and what follows it waste no argument and no value, it agrees with the modes that come out. */
  lemma {:induction false} StepAgrees(cfg: Config, modes: map<char, string>, m: map<char, string>,
          members: map<string, seq<Membership>>, mode: char, args: seq<string>, next: nat)
    requires ModesOk(cfg, modes) && mode != '+' && mode != '-' && (forall i :: 0 <= i < |args| ==> args[i] != "")
    requires ApplyOne(cfg, Ch(Some(m), members), true, mode, args, next).Some?
    requires var (ch, next') := ApplyOne(cfg, Ch(Some(m), members), true, mode, args, next).value;
             && ch.modes.Some? && ch.modes.value.Keys <= modes.Keys && HasValues(modes, ch.modes.value)
             && |Valued(modes)| == |Valued(ch.modes.value)| + Left(args, next')
             && |Valued(modes)| == |Valued(m)| + Left(args, next)
    ensures Agrees(cfg, modes, mode, args, next) && HasValues(modes, m)
  {
    var (ch, next') := ApplyOne(cfg, Ch(Some(m), members), true, mode, args, next).value;
    var m' := ch.modes.value;
    if FindMode(cfg.avail, mode).None? && mode in cfg.types && cfg.types[mode] != A {
      var value := if cfg.types[mode] == D then "" else ArgumentAt(args, next);
      assert m' == m[mode := value];
      ValuedSet(m, mode, value);
      assert mode !in Valued(m);
      forall c | c in Valued(m) ensures c in modes && modes[c] == m[c] {
        assert c in Valued(m');
      }
      if value != "" {
        assert mode in Valued(m');
      } else if cfg.types[mode] != D {
        SameSize(Valued(m'), Valued(modes));
        assert mode !in Valued(modes);
      }
    }
  }

  /** A string that makes `modes` with one argument for each value agrees with them. */
  lemma {:induction false} MakingAgrees(cfg: Config, modes: map<char, string>, m: map<char, string>,
          members: map<string, seq<Membership>>, rest: string, args: seq<string>, next: nat)
    requires ModesOk(cfg, modes) && NoSigns(rest) && (forall i :: 0 <= i < |args| ==> args[i] != "")
    requires var r := Apply(cfg, Ch(Some(m), members), Some(true), rest, args, next); r.ok && r.ch.modes == Some(modes)
    requires |Valued(modes)| == |Valued(m)| + Left(args, next)
    ensures RestAgrees(cfg, modes, rest, args, next) && HasValues(modes, m)
    decreases |rest|
  {
    if rest != "" {
      StepBudget(cfg, m, members, rest[0], args, next);
      var (ch, next') := ApplyOne(cfg, Ch(Some(m), members), true, rest[0], args, next).value;
      Budget(cfg, ch.modes.value, ch.members, rest[1..], args, next');
      MakingAgrees(cfg, modes, ch.modes.value, ch.members, rest[1..], args, next');
      StepAgrees(cfg, modes, m, members, rest[0], args, next);
    }
  }

  /** A string with one argument for each value makes `modes` exactly when it spells them. */
  lemma {:induction false} MakesExactly(cfg: Config, modes: map<char, string>, members: map<string, seq<Membership>>,
          s: string, args: seq<string>)
    requires ModesOk(cfg, modes) && NoSigns(s) && (forall i :: 0 <= i < |args| ==> args[i] != "")
        && |args| == |Valued(modes)|
    ensures Apply(cfg, Ch(Some(map[]), members), Some(true), s, args, 0) == Outcome(Ch(Some(modes), members), true)
            <==> Spells(cfg, modes, s, args)
  {
    RestIsAll(cfg, modes, s, args, 0);
    assert s[..0] == "" && s[0..] == s && Valued(map[]) == {};
    if Apply(cfg, Ch(Some(map[]), members), Some(true), s, args, 0) == Outcome(Ch(Some(modes), members), true) {
      MakingAgrees(cfg, modes, map[], members, s, args, 0);
    }
    if RestAgrees(cfg, modes, s, args, 0) {
      AgreeingMakes(cfg, modes, members, s, args);
    }
  }

  lemma {:induction false} AgreeingMakes(cfg: Config, modes: map<char, string>, members: map<string, seq<Membership>>,
          s: string, args: seq<string>)
    requires ModesOk(cfg, modes) && NoSigns(s) && RestAgrees(cfg, modes, s, args, 0)
    ensures Apply(cfg, Ch(Some(map[]), members), Some(true), s, args, 0) == Outcome(Ch(Some(modes), members), true)
            <==> forall c :: c in modes ==> c in s
  {
    var r := Apply(cfg, Ch(Some(map[]), members), Some(true), s, args, 0);
    AgreeingApplies(cfg, modes, map[], members, s, args, 0);
    assert r.ch.modes.value == modes <==> forall c :: c in modes ==> c in s;
  }

  lemma {:induction false} DistinctSize(s: string, t: set<char>)
    requires Distinct(s) && forall c :: c in s <==> c in t
    ensures |s| == |t|
  {
    if s == "" {
      assert t == {};
    } else {
      var n := |s| - 1;
      var init := s[..n];
      assert s == init + [s[n]];
      DistinctSize(init, t - {s[n]});
    }
  }

  /** There is one argument for each value. */
  lemma {:induction false} PickSize(modes: map<char, string>, order: string)
    requires Enumerates(modes, order)
    ensures |Pick(modes, order, true)| == |Valued(modes)|
  {
    PickIs(modes, order, true);
    DistinctSize(Pick(modes, order, true), Valued(modes));
  }

  /** The bytes of the reported string: ASCII modes as they are, other modes as two bytes, the first of them 0xC2 or
      0xC3 and the second from 0x80 to 0xBF. */
  lemma {:induction false} EncodeBytes(s: string, c: char)
    requires c in Encode(s)
    ensures (c in s && (c as int < 0x80 || 0x100 <= c as int)) || (0x80 <= c as int < 0xC0) || c as int in {0xC2, 0xC3}
  {
    var n := |s| - 1;
    if c in Encode(s[..n]) {
      EncodeBytes(s[..n], c);
    } else {
      EncodeByteBytes(s[n], c);
    }
  }

  lemma {:induction false} EncodeByteBytes(b: char, c: char)
    requires c in EncodeByte(b)
    ensures (c == b && (c as int < 0x80 || 0x100 <= c as int)) || (0x80 <= c as int < 0xC0) || c as int in {0xC2, 0xC3}
  {
    var x := b as int;
    if 0x80 <= x < 0x100 {
      assert x / 0x40 in {2, 3} && 0 <= x % 0x40 < 0x40;
    }
  }

  lemma {:induction false} BodyBytes(modes: map<char, string>, order: string, c: char)
    requires Enumerates(modes, order)
    ensures c in Body(modes, order) ==>
      (c in modes && (c as int < 0x80 || 0x100 <= c as int)) || 0x80 <= c as int < 0xC0 || c as int in {0xC2, 0xC3}
  {
    if c in Encode(Pick(modes, order, true)) {
      EncodeBytes(Pick(modes, order, true), c);
    } else if c in Encode(Pick(modes, order, false)) {
      EncodeBytes(Pick(modes, order, false), c);
    }
  }

  lemma {:induction false} ApplyPlus(cfg: Config, ch: Ch, s: string, args: seq<string>)
    ensures Apply(cfg, ch, None, "+" + s, args, 0) == Apply(cfg, ch, Some(true), s, args, 0)
  {
    assert ("+" + s)[1..] == s;
  }

  /** Modes come back exactly when every byte of the reported string, with the argument that falls to it, agrees with
      them and every mode is a byte of the string. */
  lemma {:induction false} ModesRoundTrip(cfg: Config, modes: map<char, string>, order: string,
          members: map<string, seq<Membership>>)
    requires ModesOk(cfg, modes) && Enumerates(modes, order)
    ensures ComesBack(cfg, modes, order, members)
            <==> Spells(cfg, modes, Body(modes, order), ValuesOf(modes, Pick(modes, order, true)))
  {
    var s, args := Body(modes, order), ValuesOf(modes, Pick(modes, order, true));
    BodyHasNoSigns(cfg, modes, order);
    ApplyPlus(cfg, Ch(Some(map[]), members), s, args);
    PickSize(modes, order);
    MakesExactly(cfg, modes, members, s, args);
  }

  lemma {:induction false} BodyHasNoSigns(cfg: Config, modes: map<char, string>, order: string)
    requires ModesOk(cfg, modes) && Enumerates(modes, order)
    ensures NoSigns(Body(modes, order))
  {
    assert '+' !in modes && '-' !in modes;
    BodyBytes(modes, order, '+');
    BodyBytes(modes, order, '-');
  }

  /** So a mode that is not a byte of the string is lost. On every network that is so of 0xC0, 0xC1 and 0xC4 to 0xFF. */
  lemma {:induction false} NonAsciiIsLost(cfg: Config, modes: map<char, string>, order: string,
          members: map<string, seq<Membership>>, c: char)
    requires ModesOk(cfg, modes) && Enumerates(modes, order) && c in modes
    ensures c !in Body(modes, order) ==> !ComesBack(cfg, modes, order, members)
    ensures 0xC0 <= c as int < 0x100 && c as int !in {0xC2, 0xC3} ==> !ComesBack(cfg, modes, order, members)
  {
    BodyBytes(modes, order, c);
    ModesRoundTrip(cfg, modes, order, members);
  }

  /** Modes without values come back exactly when the string has all of them and, of what else it has, the network knows
      nothing but lists. */
  lemma {:induction false} BareComesBack(cfg: Config, modes: map<char, string>, order: string,
          members: map<string, seq<Membership>>)
    requires ModesOk(cfg, modes) && Enumerates(modes, order) && forall c :: c in modes ==> modes[c] == ""
    ensures var s := Body(modes, order);
            ComesBack(cfg, modes, order, members)
            <==> && (forall c :: c in modes ==> c in s)
                 && forall c :: c in s ==>
                     FindMode(cfg.avail, c).None? && (c in cfg.types && cfg.types[c] != A ==> c in modes)
  {
    var s, w := Body(modes, order), Pick(modes, order, true);
    ModesRoundTrip(cfg, modes, order, members);
    assert Valued(modes) == {};
    PickSize(modes, order);
    BareSpells(cfg, modes, s);
  }

  lemma {:induction false} BareSpells(cfg: Config, modes: map<char, string>, s: string)
    requires forall c :: c in modes ==> modes[c] == ""
    ensures Spells(cfg, modes, s, [])
            <==> && (forall c :: c in modes ==> c in s)
                 && forall c :: c in s ==>
                     FindMode(cfg.avail, c).None? && (c in cfg.types && cfg.types[c] != A ==> c in modes)
  {
    if Spells(cfg, modes, s, []) {
      forall c | c in s ensures Agrees(cfg, modes, c, [], 0) {
        var i :| 0 <= i < |s| && s[i] == c;
        assert Agrees(cfg, modes, s[i], [], Taken(cfg, s[..i]));
      }
    }
  }
}
