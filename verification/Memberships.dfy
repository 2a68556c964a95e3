/** Channel member ranks (`xirc/xirc.go`), the prefixes that show them (`upstream.go`, `irc.go`) and what a network's
    PREFIX list makes of both. Characters stand for bytes. */
module Memberships {
  import opened Seqs

  datatype Membership = Membership(mode: char, prefix: char)

  /** A PREFIX list, highest rank first: no mode and no prefix is listed twice. */
  predicate Ranking(avail: seq<Membership>) {
    forall i, j :: 0 <= i < j < |avail| ==> avail[i].mode != avail[j].mode && avail[i].prefix != avail[j].prefix
  }

  /** The memberships of `s`, highest rank first. */
  function Rank(avail: seq<Membership>, s: set<Membership>): seq<Membership> {
    if avail == [] then [] else (if avail[0] in s then [avail[0]] else []) + Rank(avail[1..], s)
  }

  /** `ms` holds available memberships without repetition, highest rank first. */
  ghost predicate Ranked(avail: seq<Membership>, ms: seq<Membership>) {
    ms == Rank(avail, SetOf(ms))
  }

  lemma {:induction false} RankMembers(avail: seq<Membership>, s: set<Membership>, x: Membership)
    ensures x in Rank(avail, s) <==> x in avail && x in s
  {
    if avail != [] {
      RankMembers(avail[1..], s, x);
      assert x in avail <==> x == avail[0] || x in avail[1..];
    }
  }

  lemma {:induction false} RankConcat(a: seq<Membership>, b: seq<Membership>, s: set<Membership>)
    ensures Rank(a + b, s) == Rank(a, s) + Rank(b, s)
  {
    if a == [] {
      assert a + b == b;
    } else {
      var head, rest := if a[0] in s then [a[0]] else [], a[1..];
      assert (a + b)[1..] == rest + b && (a + b)[0] == a[0];
      RankConcat(rest, b, s);
      assert Rank(a + b, s) == head + Rank(rest + b, s) && Rank(a, s) == head + Rank(rest, s);
    }
  }

  lemma {:induction false} RankSplit(avail: seq<Membership>, j: nat, s: set<Membership>)
    requires j <= |avail|
    ensures Rank(avail, s) == Rank(avail[..j], s) + Rank(avail[j..], s)
  {
    assert avail == avail[..j] + avail[j..];
    RankConcat(avail[..j], avail[j..], s);
  }

  lemma {:induction false} RankAgrees(avail: seq<Membership>, s: set<Membership>, t: set<Membership>)
    requires forall x :: x in avail ==> (x in s <==> x in t)
    ensures Rank(avail, s) == Rank(avail, t)
  {
    if avail != [] {
      assert avail[0] in avail && forall x :: x in avail[1..] ==> x in avail;
      RankAgrees(avail[1..], s, t);
    }
  }

  /** A ranked sequence is determined by its members, and every set of available memberships has one. */
  lemma {:induction false} RankOf(avail: seq<Membership>, s: set<Membership>)
    requires s <= SetOf(avail)
    ensures SetOf(Rank(avail, s)) == s && Ranked(avail, Rank(avail, s))
  {
    forall x ensures x in Rank(avail, s) <==> x in s {
      RankMembers(avail, s, x);
    }
  }

  lemma {:induction false} RankedWithin(avail: seq<Membership>, ms: seq<Membership>)
    requires Ranked(avail, ms)
    ensures SetOf(ms) <= SetOf(avail)
  {
    forall x | x in ms ensures x in avail {
      RankMembers(avail, SetOf(ms), x);
    }
  }

  lemma {:induction false} RankDistinct(avail: seq<Membership>, s: set<Membership>)
    requires Distinct(avail)
    ensures Distinct(Rank(avail, s))
  {
    if avail != [] {
      RankDistinct(avail[1..], s);
      RankMembers(avail[1..], s, avail[0]);
    }
  }

  /** Where one membership goes. */
  lemma {:induction false} RankInsert(avail: seq<Membership>, k: nat, s: set<Membership>)
    requires Ranking(avail) && k < |avail| && avail[k] !in s
    ensures Rank(avail, s) == Rank(avail[..k], s) + Rank(avail[k + 1..], s)
    ensures Rank(avail, s + {avail[k]}) == Rank(avail[..k], s) + [avail[k]] + Rank(avail[k + 1..], s)
  {
    var t := s + {avail[k]};
    RankSplit(avail, k, s);
    RankSplit(avail, k, t);
    assert avail[k..][1..] == avail[k + 1..];
    RankAgrees(avail[..k], s, t);
    RankAgrees(avail[k + 1..], s, t);
  }

  /** Drops the first `m`. */
  function Without(l: seq<Membership>, m: Membership): seq<Membership> {
    if l == [] then [] else if l[0] == m then l[1..] else [l[0]] + Without(l[1..], m)
  }

  lemma {:induction false} WithoutAbsent(l: seq<Membership>, m: Membership)
    requires m !in l
    ensures Without(l, m) == l
  {
    if l != [] {
      WithoutAbsent(l[1..], m);
    }
  }

  /** Removing keeps rank order and deletes exactly `m`. */
  lemma {:induction false} WithoutRanks(avail: seq<Membership>, l: seq<Membership>, m: Membership)
    requires Ranking(avail) && Ranked(avail, l)
    ensures Without(l, m) == Rank(avail, SetOf(l) - {m})
    decreases |avail|
  {
    if m !in l {
      assert SetOf(l) - {m} == SetOf(l);
      WithoutAbsent(l, m);
    } else if l[0] != avail[0] {
      RankSkip(avail, l);
      WithoutRanks(avail[1..], l, m);
      assert avail[0] !in SetOf(l) - {m};
    } else {
      RankTail(avail, l);
      if avail[0] == m {
        assert SetOf(l[1..]) == SetOf(l) - {m};
      } else {
        WithoutRanks(avail[1..], l[1..], m);
        assert avail[0] !in avail[1..];
        RankAgrees(avail[1..], SetOf(l[1..]) - {m}, SetOf(l) - {m});
      }
    }
  }

  /** What the search in Add finds: `m` goes in front of the first item ranked below it. */
  function Insert(avail: seq<Membership>, l: seq<Membership>, m: Membership): seq<Membership>
    decreases |avail|
  {
    if l == [] || avail == [] then [m] + l
    else if l[0] == avail[0] then (if avail[0] == m then l else [l[0]] + Insert(avail[1..], l[1..], m))
    else if avail[0] == m then [m] + l
    else Insert(avail[1..], l, m)
  }

  lemma {:induction false} InsertStep(avail: seq<Membership>, l: seq<Membership>, i: nat, j: nat, m: Membership)
    requires i < |l| && j < |avail| && avail[j] != m
    ensures l[..i] + Insert(avail[j..], l[i..], m) ==
            if l[i] == avail[j] then l[..i + 1] + Insert(avail[j + 1..], l[i + 1..], m)
                else l[..i] + Insert(avail[j + 1..], l[i..], m)
  {
    assert avail[j..][1..] == avail[j + 1..] && l[i..][1..] == l[i + 1..];
    assert l[..i + 1] == l[..i] + [l[i]];
  }

  /** Both keep a ranked set ranked. */
  lemma {:induction false} ChangesRanked(avail: seq<Membership>, l: seq<Membership>, m: Membership)
    requires Ranking(avail) && Ranked(avail, l) && m in avail
    ensures Ranked(avail, Insert(avail, l, m)) && Ranked(avail, Without(l, m))
  {
    RankedWithin(avail, l);
    InsertRanks(avail, l, m);
    RankOf(avail, SetOf(l) + {m});
    WithoutRanks(avail, l, m);
    RankOf(avail, SetOf(l) - {m});
  }

  /** Inserting keeps rank order and adds exactly `m`. */
  lemma {:induction false} InsertRanks(avail: seq<Membership>, l: seq<Membership>, m: Membership)
    requires Ranking(avail) && Ranked(avail, l) && m in avail
    ensures Insert(avail, l, m) == Rank(avail, SetOf(l) + {m})
    decreases |avail|
  {
    var s := SetOf(l) + {m};
    if l == [] {
      RankOne(avail, m);
      assert s == {m} && [m] + l == [m];
    } else if l[0] == avail[0] {
      RankTail(avail, l);
      if avail[0] == m {
        assert s == SetOf(l);
      } else {
        InsertRanks(avail[1..], l[1..], m);
        assert avail[0] !in avail[1..];
        RankAgrees(avail[1..], SetOf(l[1..]) + {m}, s);
      }
    } else {
      RankSkip(avail, l);
      if avail[0] == m {
        assert avail[0] !in avail[1..];
        RankAgrees(avail[1..], SetOf(l), s);
      } else {
        InsertRanks(avail[1..], l, m);
      }
    }
  }

  lemma {:induction false} RankOne(avail: seq<Membership>, m: Membership)
    requires Ranking(avail) && m in avail
    ensures Rank(avail, {m}) == [m]
  {
    var k :| 0 <= k < |avail| && avail[k] == m;
    RankInsert(avail, k, {});
    RankNone(avail[..k]);
    RankNone(avail[k + 1..]);
    assert {} + {m} == {m};
  }

  lemma {:induction false} RankNone(avail: seq<Membership>)
    ensures Rank(avail, {}) == []
  {
    if avail != [] {
      RankNone(avail[1..]);
    }
  }

  method InsertInto(avail: seq<Membership>, l: seq<Membership>, m: Membership) returns (l': seq<Membership>)
    ensures l' == Insert(avail, l, m)
  {
    var i, j := 0, 0;
    assert avail[0..] == avail && l[0..] == l;
    while j < |avail|
      invariant 0 <= i <= |l| && 0 <= j <= |avail|
      invariant l[..i] + Insert(avail[j..], l[i..], m) == Insert(avail, l, m)
    {
      if i >= |l| {
        break;
      }
      if l[i] == avail[j] {
        if avail[j] == m {
          assert l[..i] + l[i..] == l;
          return l;
        }
        InsertStep(avail, l, i, j, m);
        i := i + 1;
      } else if avail[j] == m {
        break;
      } else {
        InsertStep(avail, l, i, j, m);
      }
      j := j + 1;
    }
    assert l[..i] + ([m] + l[i..]) == l[..i] + [m] + l[i..];
    l' := l[..i] + [m] + l[i..];
  }

  method RemoveFrom(l: seq<Membership>, m: Membership) returns (l': seq<Membership>)
    ensures l' == Without(l, m)
  {
    assert l[0..] == l;
    for i := 0 to |l|
      invariant l[..i] + Without(l[i..], m) == Without(l, m)
    {
      WithoutStep(l, i, m);
      if l[i] == m {
        return l[..i] + l[i + 1..];
      }
    }
    l' := l;
  }

  lemma {:induction false} WithoutStep(l: seq<Membership>, i: nat, m: Membership)
    requires i < |l|
    ensures l[..i] + Without(l[i..], m) == if l[i] == m then l[..i] + l[i + 1..]
        else l[..i + 1] + Without(l[i + 1..], m)
  {
    assert l[i..][1..] == l[i + 1..] && l[..i] + [l[i]] == l[..i + 1];
  }

  class MembershipSet {
    var l: seq<Membership>

    constructor (l: seq<Membership>)
      ensures this.l == l
    {
      this.l := l;
    }

    /** Inserts into the set, keeping rank order. */
    method Add(avail: seq<Membership>, m: Membership)
      modifies this
      ensures l == Insert(avail, old(l), m)
      ensures Ranking(avail) && Ranked(avail, old(l)) && m in avail ==> l == Rank(avail, SetOf(old(l)) + {m})
    {
      if Ranking(avail) && Ranked(avail, l) && m in avail {
        InsertRanks(avail, l, m);
      }
      l := InsertInto(avail, l, m);
    }

    /** Deletes from the set, keeping the order. */
    method Remove(m: Membership)
      modifies this
      ensures l == Without(old(l), m)
    {
      l := RemoveFrom(l, m);
    }
  }

  // ---- Prefixes

  /** The memberships shown in front of a nickname in a NAMES reply, and the nickname. */
  function Parse(avail: seq<Membership>, s: string): (seq<Membership>, string)
    decreases |avail|
  {
    if avail == [] || s == "" then ([], s)
    else if s[0] == avail[0].prefix then
      var (ms, nick) := Parse(avail[1..], s[1..]);
      ([avail[0]] + ms, nick)
    else Parse(avail[1..], s)
  }

  lemma {:induction false} ParseAfter(avail: seq<Membership>, s: string, done: seq<Membership>)
    requires avail != [] && s != ""
    ensures var (ms, nick) := Parse(avail, s);
            var hit := s[0] == avail[0].prefix;
            var (rest, nick') := Parse(avail[1..], if hit then s[1..] else s);
            done + ms == (if hit then done + [avail[0]] else done) + rest && nick == nick'
  {
  }

  method ParseMembershipPrefix(avail: seq<Membership>, s: string) returns (ms: seq<Membership>, nick: string)
    ensures (ms, nick) == Parse(avail, s)
  {
    ms := [];
    var i, j := 0, 0;
    assert avail[0..] == avail && s[0..] == s && [] + Parse(avail, s).0 == Parse(avail, s).0;
    while j < |avail|
      invariant 0 <= i <= |s| && 0 <= j <= |avail|
      invariant ms + Parse(avail[j..], s[i..]).0 == Parse(avail, s).0
      invariant Parse(avail[j..], s[i..]).1 == Parse(avail, s).1
    {
      if i >= |s| {
        break;
      }
      ParseAfter(avail[j..], s[i..], ms);
      assert avail[j..][1..] == avail[j + 1..] && s[i..][1..] == s[i + 1..];
      if s[i] == avail[j].prefix {
        ms := ms + [avail[j]];
        i := i + 1;
      }
      j := j + 1;
    }
    nick := s[i..];
    assert ms + [] == ms;
  }

  function Prefixes(ms: seq<Membership>): (r: string)
    ensures |r| == |ms| && forall i :: 0 <= i < |ms| ==> r[i] == ms[i].prefix
  {
    seq(|ms|, i requires 0 <= i < |ms| => ms[i].prefix)
  }

  lemma {:induction false} RankedFurther(avail: seq<Membership>, ms: seq<Membership>)
    requires Ranking(avail) && avail != [] && Ranked(avail[1..], ms)
    ensures Ranked(avail, ms) && Ranked(avail, [avail[0]] + ms)
  {
    RankMembers(avail[1..], SetOf(ms), avail[0]);
    assert avail[0] !in avail[1..];
    RankAgrees(avail[1..], SetOf(ms), SetOf([avail[0]] + ms));
  }

  /** Parsing gives available memberships in rank order. */
  lemma {:induction false} ParseRanked(avail: seq<Membership>, s: string)
    requires Ranking(avail)
    ensures Ranked(avail, Parse(avail, s).0)
    decreases |avail|
  {
    if avail == [] || s == "" {
      RankNone(avail);
      assert SetOf<Membership>([]) == {};
    } else {
      var rest := if s[0] == avail[0].prefix then s[1..] else s;
      ParseRanked(avail[1..], rest);
      RankedFurther(avail, Parse(avail[1..], rest).0);
    }
  }

  /** Parsing loses nothing of the text. */
  lemma {:induction false} ParseKeepsText(avail: seq<Membership>, s: string)
    ensures Prefixes(Parse(avail, s).0) + Parse(avail, s).1 == s
    decreases |avail|
  {
    if avail == [] || s == "" {
      assert Prefixes([]) + s == s;
    } else if s[0] == avail[0].prefix {
      ParseKeepsText(avail[1..], s[1..]);
      var ms := Parse(avail[1..], s[1..]).0;
      assert Prefixes([avail[0]] + ms) == [s[0]] + Prefixes(ms);
    } else {
      ParseKeepsText(avail[1..], s);
    }
  }

  /** `nick` begins with the prefix of a membership ranked below all of `ms`. */
  ghost predicate LooksRanked(avail: seq<Membership>, ms: seq<Membership>, nick: string) {
    nick != "" && exists j :: 0 <= j < |avail| && avail[j].prefix == nick[0] && forall i ::
        j <= i < |avail| ==> avail[i] !in ms
  }

  /** Formatting all prefixes and parsing them back gives the same memberships and nickname, unless the nickname begins
      with the prefix of a membership ranked below them. */
  lemma {:induction false} PrefixRoundTrip(avail: seq<Membership>, ms: seq<Membership>, nick: string)
    requires Ranking(avail) && Ranked(avail, ms)
    ensures Parse(avail, Prefixes(ms) + nick) == (ms, nick) <==> !LooksRanked(avail, ms, nick)
    decreases |avail|
  {
    if avail != [] {
      if ms == [] {
        BareRoundTrip(avail, nick);
        assert Prefixes(ms) + nick == nick;
      } else if ms[0] == avail[0] {
        RankTail(avail, ms);
        PrefixRoundTrip(avail[1..], ms[1..], nick);
        assert (Prefixes(ms) + nick)[1..] == Prefixes(ms[1..]) + nick;
        LooksRankedTail(avail, ms, nick);
        assert ms == [avail[0]] + ms[1..];
      } else {
        RankSkip(avail, ms);
        PrefixRoundTrip(avail[1..], ms, nick);
        assert (Prefixes(ms) + nick)[0] == ms[0].prefix != avail[0].prefix;
        LooksRankedSkip(avail, ms, nick);
      }
    } else {
      assert ms == [] && Prefixes(ms) + nick == nick;
    }
  }

  /** A nickname that begins with a prefix is cut short. */
  lemma {:induction false} PrefixedNick()
    ensures Parse([Membership('o', '@')], "@x") == ([Membership('o', '@')], "x")
  {
    var avail := [Membership('o', '@')];
    assert "@x"[1..] == "x" && avail[1..] == [] && avail + [] == avail;
    assert Parse([], "x") == ([], "x");
  }

  lemma {:induction false} BareRoundTrip(avail: seq<Membership>, nick: string)
    ensures Parse(avail, nick) == ([], nick) <==> !LooksRanked(avail, [], nick)
    decreases |avail|
  {
    if avail != [] && nick != "" {
      if nick[0] != avail[0].prefix {
        BareRoundTrip(avail[1..], nick);
        if LooksRanked(avail[1..], [], nick) {
          var j :| 0 <= j < |avail[1..]| && avail[1..][j].prefix == nick[0];
          assert avail[j + 1].prefix == nick[0];
        }
        if LooksRanked(avail, [], nick) {
          var j :| 0 <= j < |avail| && avail[j].prefix == nick[0];
          assert avail[1..][j - 1].prefix == nick[0];
        }
      } else {
        assert avail[0].prefix == nick[0];
      }
    }
  }

  lemma {:induction false} RankTail(avail: seq<Membership>, ms: seq<Membership>)
    requires Ranking(avail) && Ranked(avail, ms) && avail != [] && ms != [] && ms[0] == avail[0]
    ensures Ranked(avail[1..], ms[1..]) && avail[0] !in ms[1..]
  {
    RankDistinct(avail, SetOf(ms));
    assert avail[0] !in avail[1..];
    RankAgrees(avail[1..], SetOf(ms), SetOf(ms[1..]));
  }

  lemma {:induction false} RankSkip(avail: seq<Membership>, ms: seq<Membership>)
    requires Ranking(avail) && Ranked(avail, ms) && avail != [] && ms != [] && ms[0] != avail[0]
    ensures Ranked(avail[1..], ms) && avail[0] !in ms && avail[0].prefix != ms[0].prefix
  {
    RankMembers(avail, SetOf(ms), ms[0]);
    var j :| 0 <= j < |avail| && avail[j] == ms[0];
    assert j > 0;
  }

  lemma {:induction false} LooksRankedTail(avail: seq<Membership>, ms: seq<Membership>, nick: string)
    requires avail != [] && ms != [] && ms[0] == avail[0] && Ranking(avail)
    ensures LooksRanked(avail, ms, nick) <==> LooksRanked(avail[1..], ms[1..], nick)
  {
    forall i | 1 <= i < |avail| ensures avail[i] in ms <==> avail[i] in ms[1..] {
    }
    LooksRankedShift(avail, ms, ms[1..], nick);
  }

  lemma {:induction false} LooksRankedSkip(avail: seq<Membership>, ms: seq<Membership>, nick: string)
    requires Ranking(avail) && Ranked(avail, ms) && avail != [] && ms != [] && ms[0] != avail[0]
    ensures LooksRanked(avail, ms, nick) <==> LooksRanked(avail[1..], ms, nick)
  {
    RankMembers(avail, SetOf(ms), ms[0]);
    LooksRankedShift(avail, ms, ms, nick);
  }

  lemma {:induction false} LooksRankedShift(avail: seq<Membership>, ms: seq<Membership>, ms': seq<Membership>,
          nick: string)
    requires avail != [] && (exists i :: 0 <= i < |avail| && avail[i] in ms)
    requires forall i :: 1 <= i < |avail| ==> (avail[i] in ms <==> avail[i] in ms')
    ensures LooksRanked(avail, ms, nick) <==> LooksRanked(avail[1..], ms', nick)
  {
    if LooksRanked(avail, ms, nick) {
      var j :| 0 <= j < |avail| && avail[j].prefix == nick[0] && forall i :: j <= i < |avail| ==> avail[i] !in ms;
      assert j > 0;
      assert avail[1..][j - 1].prefix == nick[0];
      assert forall i :: j - 1 <= i < |avail[1..]| ==> avail[1..][i] !in ms';
    }
    if LooksRanked(avail[1..], ms', nick) {
      var j :| 0 <= j < |avail[1..]| && avail[1..][j].prefix == nick[0] && forall i ::
          j <= i < |avail[1..]| ==> avail[1..][i] !in ms';
      assert avail[j + 1].prefix == nick[0];
      forall i | j + 1 <= i < |avail| ensures avail[i] !in ms {
        assert avail[1..][i - 1] !in ms';
      }
    }
  }

  /** Converting a byte to a string encodes it as a character of UTF-8. */
  function EncodeByte(b: char): string {
    var c := b as int;
    if c < 0x80 || 0x100 <= c then [b] else [(0xC0 + c / 0x40) as char, (0x80 + c % 0x40) as char]
  }

  /** A client with multi-prefix sees every rank, any other client the highest. */
  method FormatMemberPrefix(ms: seq<Membership>, multiPrefix: bool) returns (s: string)
    ensures s == if multiPrefix then Prefixes(ms) else if ms == [] then "" else EncodeByte(ms[0].prefix)
  {
    if !multiPrefix {
      return if ms == [] then "" else EncodeByte(ms[0].prefix);
    }
    var prefixes := new char[|ms|](i => '\0');
    for i := 0 to |ms|
      invariant forall k :: 0 <= k < i ==> prefixes[k] == ms[k].prefix
    {
      prefixes[i] := ms[i].prefix;
    }
    s := prefixes[..];
  }

  /** The highest rank is what a single prefix shows: nothing else in the set is ranked above it. */
  lemma {:induction false} FirstIsHighest(avail: seq<Membership>, ms: seq<Membership>, k: nat)
    requires Ranking(avail) && Ranked(avail, ms) && k < |avail| && avail[k] in ms
    ensures exists j :: 0 <= j <= k && ms[0] == avail[j]
  {
    RankSplit(avail, k, SetOf(ms));
    if Rank(avail[..k], SetOf(ms)) != [] {
      RankMembers(avail[..k], SetOf(ms), ms[0]);
    } else {
      assert avail[k..][0] == avail[k];
    }
  }
}
