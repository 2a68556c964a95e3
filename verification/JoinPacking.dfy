/** Packing channels to join into JOIN messages (`xirc/genmsg.go`). Characters stand for bytes. */
module JoinPacking {
  import opened Seqs
  import opened Text

  /** A channel to join; an empty key stands for none. */
  datatype Pair = Pair(channel: string, key: string)

  /** A JOIN message; empty keys stand for a message without that parameter. */
  datatype JoinMessage = JoinMsg(channels: string, keys: string)

  const MAX_MESSAGE_LENGTH: nat := 512

  /** What "JOIN" and two spaces leave for channels and keys. */
  const MAX_LENGTH: nat := MAX_MESSAGE_LENGTH - 6

  // ---- Sorting

  /** The order of bytes. */
  predicate StringLess(a: string, b: string) {
    b != "" && (a == "" || a[0] < b[0] || (a[0] == b[0] && StringLess(a[1..], b[1..])))
  }

  /** Channels with a key come first. */
  predicate Less(p: Pair, q: Pair) {
    if (p.key != "") != (q.key != "") then p.key != "" else StringLess(p.channel, q.channel)
  }

  lemma {:induction false} StringLessOrders(a: string, b: string, c: string)
    ensures StringLess(a, b) ==> !StringLess(b, a)
    ensures !StringLess(b, a) && !StringLess(c, b) ==> !StringLess(c, a)
    decreases |a|
  {
    if a != "" && b != "" && c != "" {
      StringLessOrders(a[1..], b[1..], c[1..]);
    } else if a != "" && b != "" && a[0] == b[0] {
      StringLessOrders(a[1..], b[1..], "");
    }
  }

  predicate Sorted(s: seq<Pair>) {
    forall i, j :: 0 <= i < j < |s| ==> !Less(s[j], s[i])
  }

  lemma {:induction false} LessOrders(p: Pair, q: Pair, r: Pair)
    ensures Less(p, q) ==> !Less(q, p)
    ensures !Less(q, p) && !Less(r, q) ==> !Less(r, p)
  {
    StringLessOrders(p.channel, q.channel, r.channel);
  }

  /** `s[..i + 1]` would be in order without its item at `j`, which belongs there or further to the front. */
  predicate Sifting(s: seq<Pair>, i: nat, j: nat)
    requires j <= i < |s|
  {
    && (forall x, y :: 0 <= x < y <= i && x != j && y != j ==> !Less(s[y], s[x]))
    && forall y :: j < y <= i ==> !Less(s[y], s[j])
  }

  function Swapped(s: seq<Pair>, j: nat): seq<Pair>
    requires 0 < j < |s|
  {
    s[j := s[j - 1]][j - 1 := s[j]]
  }

  lemma {:induction false} SiftStep(s: seq<Pair>, i: nat, j: nat)
    requires 0 < j <= i < |s| && Sifting(s, i, j) && Less(s[j], s[j - 1])
    ensures Sifting(Swapped(s, j), i, j - 1) && multiset(Swapped(s, j)) == multiset(s)
  {
    LessOrders(s[j], s[j - 1], s[j]);
  }

  lemma {:induction false} SiftDone(s: seq<Pair>, i: nat, j: nat)
    requires j <= i < |s| && Sifting(s, i, j) && (j > 0 ==> !Less(s[j], s[j - 1]))
    ensures Sorted(s[..i + 1])
  {
    forall x, y | 0 <= x < y <= i ensures !Less(s[y], s[x]) {
      if y == j && x < j - 1 {
        LessOrders(s[x], s[j - 1], s[j]);
      }
    }
  }

  /** The slices being sorted together. */
  class JoinSorter {
    const channels: array<string>
    const keys: array<string>

    constructor (channels: array<string>, keys: array<string>)
      requires channels != keys && channels.Length == keys.Length
      ensures Valid() && this.channels == channels && this.keys == keys
    {
      this.channels, this.keys := channels, keys;
    }

    ghost predicate Valid() {
      channels != keys && channels.Length == keys.Length
    }

    ghost function Pairs(): (s: seq<Pair>)
      requires Valid()
      reads channels, keys
      ensures |s| == channels.Length && forall i :: 0 <= i < |s| ==> s[i] == Pair(channels[i], keys[i])
    {
      PairUp(channels[..], keys[..])
    }

    method IsLess(i: nat, j: nat) returns (b: bool)
      requires Valid() && i < channels.Length && j < channels.Length
      ensures b == Less(Pairs()[i], Pairs()[j])
    {
      if (keys[i] != "") != (keys[j] != "") {
        return keys[i] != "";
      }
      b := StringLess(channels[i], channels[j]);
    }

    method Swap(i: nat, j: nat)
      requires Valid() && i < channels.Length && j < channels.Length
      modifies channels, keys
      ensures Pairs() == old(Pairs())[i := old(Pairs())[j]][j := old(Pairs())[i]]
    {
      channels[i], channels[j] := channels[j], channels[i];
      keys[i], keys[j] := keys[j], keys[i];
    }

    /** Sorting through the three operations above, by insertion. */
    method Sort()
      requires Valid()
      modifies channels, keys
      ensures Sorted(Pairs()) && multiset(Pairs()) == multiset(old(Pairs()))
    {
      var i := 0;
      while i < channels.Length
        invariant 0 <= i <= channels.Length && Sorted(Pairs()[..i]) && multiset(Pairs()) == multiset(old(Pairs()))
      {
        Sift(i);
        i := i + 1;
      }
      assert Pairs()[..i] == Pairs();
    }

    method Sift(i: nat)
      requires Valid() && i < channels.Length && Sorted(Pairs()[..i])
      modifies channels, keys
      ensures Sorted(Pairs()[..i + 1]) && multiset(Pairs()) == multiset(old(Pairs()))
    {
      var j := i;
      SiftStart(Pairs(), i);
      while j > 0
        invariant 0 <= j <= i && Sifting(Pairs(), i, j) && multiset(Pairs()) == multiset(old(Pairs()))
      {
        var less := IsLess(j, j - 1);
        if !less {
          break;
        }
        SiftStep(Pairs(), i, j);
        ghost var was := Pairs();
        Swap(j, j - 1);
        assert Pairs() == Swapped(was, j);
        j := j - 1;
      }
      SiftDone(Pairs(), i, j);
    }
  }

  lemma {:induction false} SiftStart(s: seq<Pair>, i: nat)
    requires i < |s| && Sorted(s[..i])
    ensures Sifting(s, i, i)
  {
    forall x, y | 0 <= x < y < i ensures !Less(s[y], s[x]) {
      assert s[..i][x] == s[x] && s[..i][y] == s[y];
    }
  }

  function PairUp(channels: seq<string>, keys: seq<string>): (s: seq<Pair>)
    requires |channels| == |keys|
    ensures |s| == |channels| && forall i :: 0 <= i < |s| ==> s[i] == Pair(channels[i], keys[i])
  {
    seq(|channels|, i requires 0 <= i < |channels| => Pair(channels[i], keys[i]))
  }

  // ---- Messages

  function Names(g: seq<Pair>): (r: seq<string>)
    ensures |r| == |g| && forall i :: 0 <= i < |g| ==> r[i] == g[i].channel
  {
    seq(|g|, i requires 0 <= i < |g| => g[i].channel)
  }

  function KeyList(g: seq<Pair>): (r: seq<string>)
    ensures |r| <= |g| && forall i :: 0 <= i < |r| ==> r[i] != ""
  {
    if g == [] then [] else KeyList(g[..|g| - 1]) + (if g[|g| - 1].key == "" then [] else [g[|g| - 1].key])
  }

  function Message(g: seq<Pair>): JoinMessage {
    JoinMsg(Join(Names(g), ","), Join(KeyList(g), ","))
  }

  /** The bytes of channels and keys. */
  function Weight(g: seq<Pair>): nat {
    |Message(g).channels| + |Message(g).keys|
  }

  function RecoverKeys(m: JoinMessage): seq<string> {
    if m.keys == "" then [] else Split(m.keys, ",")
  }

  function Match(names: seq<string>, keys: seq<string>): (r: seq<Pair>)
    ensures |r| == |names| && forall i :: 0 <= i < |r| ==> r[i] == Pair(names[i], if i < |keys| then keys[i] else "")
  {
    seq(|names|, i requires 0 <= i < |names| => Pair(names[i], if i < |keys| then keys[i] else ""))
  }

  /** What the server makes of a message: the i-th key is for the i-th channel. */
  function Recover(m: JoinMessage): seq<Pair> {
    Match(Split(m.channels, ","), RecoverKeys(m))
  }

  function RecoverEach(msgs: seq<JoinMessage>): (r: seq<seq<Pair>>)
    ensures |r| == |msgs| && forall i :: 0 <= i < |r| ==> r[i] == Recover(msgs[i])
  {
    seq(|msgs|, i requires 0 <= i < |msgs| => Recover(msgs[i]))
  }

  function RecoverAll(msgs: seq<JoinMessage>): seq<Pair> {
    Concat(RecoverEach(msgs))
  }

  predicate Named(s: seq<Pair>) {
    forall i :: 0 <= i < |s| ==> s[i].channel != ""
  }

  predicate CommaFree(s: seq<Pair>) {
    forall i :: 0 <= i < |s| ==> ',' !in s[i].channel && ',' !in s[i].key
  }

  predicate KeyedFirst(s: seq<Pair>) {
    forall i, j :: 0 <= i < j < |s| && s[j].key != "" ==> s[i].key != ""
  }

  lemma {:induction false} SortedKeyedFirst(s: seq<Pair>)
    requires Sorted(s)
    ensures KeyedFirst(s)
  {
    forall i, j | 0 <= i < j < |s| && s[j].key != "" ensures s[i].key != "" {
      assert !Less(s[j], s[i]);
    }
  }

  /** Where keyed channels come first, the i-th key is the i-th channel's. */
  lemma {:induction false} KeyListAt(g: seq<Pair>)
    requires KeyedFirst(g)
    ensures forall i :: 0 <= i < |g| ==> g[i].key == if i < |KeyList(g)| then KeyList(g)[i] else ""
  {
    if g != [] {
      var n := |g| - 1;
      KeyListAt(g[..n]);
      assert g[n].key != "" && n > 0 ==> g[n - 1].key != "";
    }
  }

  /** A message is read back as exactly the channels and keys it was made for. */
  lemma {:induction false} Recovers(g: seq<Pair>)
    requires g != [] && CommaFree(g) && KeyedFirst(g)
    ensures Recover(Message(g)) == g
  {
    KeyListAt(g);
    SplitJoin(Names(g), ',');
    RecoversKeys(g);
    assert Match(Names(g), KeyList(g)) == g;
  }

  lemma {:induction false} RecoversKeys(g: seq<Pair>)
    requires CommaFree(g) && KeyedFirst(g)
    ensures RecoverKeys(Message(g)) == KeyList(g)
  {
    if KeyList(g) != [] {
      KeyListAt(g);
      forall i | 0 <= i < |KeyList(g)| ensures ',' !in KeyList(g)[i] {
        assert KeyList(g)[i] == g[i].key;
      }
      SplitJoin(KeyList(g), ',');
      JoinNonEmpty(KeyList(g));
    }
  }

  lemma {:induction false} JoinNonEmpty(parts: seq<string>)
    requires parts != [] && parts[0] != ""
    ensures Join(parts, ",") != ""
  {
  }

  // ---- Packing

  /** A group of several channels fits, and one more channel, the first of the next group, would not have. */
  ghost predicate Packed(groups: seq<seq<Pair>>) {
    groups == [] ||
    var n := |groups| - 1;
    Packed(groups[..n]) && Fits(groups[n]) && (n > 0 ==> Cost(groups[n - 1], groups[n][0]) > MAX_LENGTH)
  }

  predicate Fits(g: seq<Pair>) {
    g != [] && (|g| >= 2 ==> Weight(g) <= MAX_LENGTH)
  }

  lemma {:induction false} PackedAt(groups: seq<seq<Pair>>, i: nat)
    requires Packed(groups) && i < |groups|
    ensures Fits(groups[i])
    ensures i + 1 < |groups| ==> groups[i + 1] != [] && Cost(groups[i], groups[i + 1][0]) > MAX_LENGTH
  {
    var n := |groups| - 1;
    if i < n {
      PackedAt(groups[..n], i);
    }
  }

  /** What the code reckons a group takes with one more channel. */
  function Cost(g: seq<Pair>, p: Pair): nat {
    Weight(g) + 1 + |p.channel| + (if p.key != "" then 1 + |p.key| else 0)
  }

  function Messages(groups: seq<seq<Pair>>): (r: seq<JoinMessage>)
    ensures |r| == |groups| && forall i :: 0 <= i < |r| ==> r[i] == Message(groups[i])
  {
    seq(|groups|, i requires 0 <= i < |groups| => Message(groups[i]))
  }

  function Grown(buf: string, part: string): string {
    if |buf| > 0 then buf + "," + part else part
  }

  lemma {:induction false} JoinGrows(parts: seq<string>, part: string)
    requires forall i :: 0 <= i < |parts| ==> parts[i] != ""
    ensures Join(parts + [part], ",") == Grown(Join(parts, ","), part)
  {
    if parts == [] {
      assert parts + [part] == [part];
    } else {
      JoinAppend(parts, part, ",");
      JoinNonEmpty(parts);
    }
  }

  /** Writing one more channel to the buffers makes them the buffers of the grown group. */
  lemma {:induction false} MessageGrows(g: seq<Pair>, p: Pair)
    requires Named(g)
    ensures var m, m' := Message(g), Message(g + [p]);
            && m'.channels == Grown(m.channels, p.channel)
            && m'.keys == (if p.key != "" then Grown(m.keys, p.key) else m.keys)
    ensures Weight(g + [p]) <= Cost(g, p)
    ensures g != [] ==> Message(g).channels != ""
  {
    var g' := g + [p];
    assert Names(g') == Names(g) + [p.channel];
    JoinGrows(Names(g), p.channel);
    assert g'[..|g|] == g && KeyList(g) + [] == KeyList(g);
    JoinGrows(KeyList(g), p.key);
    if g != [] {
      JoinNonEmpty(Names(g));
    }
  }

  /** `groups` are done and `cur` is being put together. */
  ghost predicate Packing(groups: seq<seq<Pair>>, cur: seq<Pair>) {
    && Packed(groups) && Named(cur) && (cur != [] ==> Fits(cur))
    && (groups != [] && cur != [] ==> Cost(groups[|groups| - 1], cur[0]) > MAX_LENGTH)
  }

  /** A channel that fits, or that starts a group. */
  lemma {:induction false} Put(groups: seq<seq<Pair>>, cur: seq<Pair>, p: Pair)
    requires Packing(groups, cur) && p.channel != ""
    requires if cur == [] then groups != [] ==>
        Cost(groups[|groups| - 1], p) > MAX_LENGTH else Cost(cur, p) <= MAX_LENGTH
    ensures Packing(groups, cur + [p])
  {
    MessageGrows(cur, p);
  }

  lemma {:induction false} Flush(groups: seq<seq<Pair>>, cur: seq<Pair>)
    requires Packing(groups, cur) && cur != []
    ensures Packing(groups + [cur], []) && Concat(groups + [cur]) == Concat(groups) + cur
    ensures Messages(groups + [cur]) == Messages(groups) + [Message(cur)]
  {
    assert (groups + [cur])[..|groups|] == groups;
  }

  method Write(channelsBuf: string, keysBuf: string, channel: string, key: string) returns (c: string, k: string)
    ensures c == Grown(channelsBuf, channel) && k == if key != "" then Grown(keysBuf, key) else keysBuf
  {
    c, k := channelsBuf, keysBuf;
    if |c| > 0 {
      c := c + ",";
    }
    c := c + channel;
    if key != "" {
      if |k| > 0 {
        k := k + ",";
      }
      k := k + key;
    }
  }

  /** The loop has dealt with `done`. */
  ghost predicate At(groups: seq<seq<Pair>>, cur: seq<Pair>, done: seq<Pair>, msgs: seq<JoinMessage>,
          buf: JoinMessage) {
    && Concat(groups) + cur == done && Packing(groups, cur) && (cur == [] ==> groups == [])
    && msgs == Messages(groups) && buf == Message(cur)
  }

  lemma {:induction false} AtPut(groups: seq<seq<Pair>>, cur: seq<Pair>, done: seq<Pair>, msgs: seq<JoinMessage>,
          buf: JoinMessage, p: Pair)
    requires At(groups, cur, done, msgs, buf) && p.channel != "" && (|buf.channels| > 0 ==> Cost(cur, p) <= MAX_LENGTH)
    ensures At(groups, cur + [p], done + [p], msgs, Extended(buf, p))
  {
    MessageGrows(cur, p);
    Put(groups, cur, p);
    assert Concat(groups) + (cur + [p]) == Concat(groups) + cur + [p];
  }

  lemma {:induction false} AtFlush(groups: seq<seq<Pair>>, cur: seq<Pair>, done: seq<Pair>, msgs: seq<JoinMessage>,
          buf: JoinMessage, p: Pair)
    requires At(groups, cur, done, msgs, buf) && p.channel != "" && |buf.channels| > 0 && Cost(cur, p) > MAX_LENGTH
    ensures At(groups + [cur], [p], done + [p], msgs + [buf], JoinMsg(p.channel, p.key))
  {
    assert cur != [] by { assert Join(Names([]), ",") == ""; }
    Flush(groups, cur);
    MessageGrows([], p);
    assert [] + [p] == [p];
    Put(groups + [cur], [], p);
    assert Join(Names([]), ",") == "" && Join(KeyList([]), ",") == "";
  }

  function Extended(buf: JoinMessage, p: Pair): JoinMessage {
    JoinMsg(Grown(buf.channels, p.channel), if p.key != "" then Grown(buf.keys, p.key) else buf.keys)
  }

  /** One turn of the loop: flush the buffers if the channel does not fit, then write it to them. */
  method PackNext(msgs0: seq<JoinMessage>, buf: JoinMessage, channel: string, key: string,
          ghost groups0: seq<seq<Pair>>, ghost cur0: seq<Pair>, ghost done: seq<Pair>)
    returns (msgs: seq<JoinMessage>, channelsBuf: string, keysBuf: string, ghost groups: seq<seq<Pair>>,
        ghost cur: seq<Pair>)
    requires At(groups0, cur0, done, msgs0, buf) && channel != ""
    ensures At(groups, cur, done + [Pair(channel, key)], msgs, JoinMsg(channelsBuf, keysBuf))
  {
    msgs, channelsBuf, keysBuf := msgs0, buf.channels, buf.keys;
    var n := |channelsBuf| + |keysBuf| + 1 + |channel|;
    if key != "" {
      n := n + 1 + |key|;
    }
    ghost var p := Pair(channel, key);
    assert n == Cost(cur0, p);
    if |channelsBuf| > 0 && n > MAX_LENGTH {
      AtFlush(groups0, cur0, done, msgs0, buf, p);
      msgs := msgs + [buf];
      groups, cur := groups0 + [cur0], [p];
      channelsBuf, keysBuf := "", "";
    } else {
      AtPut(groups0, cur0, done, msgs0, buf, p);
      groups, cur := groups0, cur0 + [p];
    }
    channelsBuf, keysBuf := Write(channelsBuf, keysBuf, channel, key);
  }

  /** The messages are those of `groups`, which make up `pairs`. */
  ghost predicate PackedInto(pairs: seq<Pair>, groups: seq<seq<Pair>>, msgs: seq<JoinMessage>) {
    Concat(groups) == pairs && Packed(groups) && msgs == Messages(groups)
  }

  lemma {:induction false} PairUpNext(channels: seq<string>, keys: seq<string>, i: nat)
    requires |channels| == |keys| && Named(PairUp(channels, keys)) && i < |channels|
    ensures var pairs := PairUp(channels, keys);
            channels[i] != "" && pairs[..i + 1] == pairs[..i] + [Pair(channels[i], keys[i])]
  {
    assert PairUp(channels, keys)[i].channel != "";
  }

  /** The loop of `GenerateJoin` over the sorted channels. */
  method Pack(channels: seq<string>, keys: seq<string>) returns (msgs: seq<JoinMessage>)
    requires |channels| == |keys| && Named(PairUp(channels, keys))
    ensures exists groups :: PackedInto(PairUp(channels, keys), groups, msgs)
  {
    ghost var pairs := PairUp(channels, keys);
    var channelsBuf, keysBuf := "", "";
    ghost var cur: seq<Pair>, groups: seq<seq<Pair>> := [], [];
    msgs := [];
    AtStart(pairs);
    for i := 0 to |channels|
      invariant At(groups, cur, pairs[..i], msgs, JoinMsg(channelsBuf, keysBuf))
    {
      PairUpNext(channels, keys, i);
      msgs, channelsBuf, keysBuf, groups, cur := PackNext(msgs, JoinMsg(channelsBuf, keysBuf), channels[i], keys[i],
          groups, cur, pairs[..i]);
    }
    assert pairs[..|channels|] == pairs;
    msgs, groups := Finish(msgs, JoinMsg(channelsBuf, keysBuf), groups, cur, pairs);
  }

  /** What is left in the buffers makes a last message. */
  method Finish(msgs0: seq<JoinMessage>, buf: JoinMessage, ghost groups0: seq<seq<Pair>>, ghost cur: seq<Pair>,
          ghost done: seq<Pair>)
    returns (msgs: seq<JoinMessage>, ghost groups: seq<seq<Pair>>)
    requires At(groups0, cur, done, msgs0, buf)
    ensures PackedInto(done, groups, msgs)
  {
    AtEnd(groups0, cur, done, msgs0, buf);
    msgs, groups := msgs0, groups0;
    if |buf.channels| > 0 {
      msgs := msgs + [buf];
      groups := groups + [cur];
    }
  }

  lemma {:induction false} AtStart(pairs: seq<Pair>)
    ensures At([], [], pairs[..0], [], JoinMsg("", ""))
  {
    assert Names([]) == [] && pairs[..0] == [];
  }

  lemma {:induction false} AtEnd(groups: seq<seq<Pair>>, cur: seq<Pair>, done: seq<Pair>, msgs: seq<JoinMessage>,
          buf: JoinMessage)
    requires At(groups, cur, done, msgs, buf)
    ensures var all := if |buf.channels| > 0 then groups + [cur] else groups;
            Concat(all) == done && Packed(all) && Messages(all) == if |buf.channels| > 0 then msgs + [buf] else msgs
  {
    if cur == [] {
      assert Names([]) == [];
    } else {
      MessageGrows(cur, Pair("", ""));
      Flush(groups, cur);
    }
  }

  /** `GenerateJoin`: sorts both slices in place, then packs them. */
  method GenerateJoin(channels: array<string>, keys: array<string>) returns (msgs: seq<JoinMessage>,
          ghost groups: seq<seq<Pair>>)
    requires channels != keys && channels.Length == keys.Length && Named(PairUp(channels[..], keys[..]))
    modifies channels, keys
    ensures Sorted(Concat(groups)) && multiset(Concat(groups)) == multiset(old(PairUp(channels[..], keys[..])))
    ensures Packed(groups) && msgs == Messages(groups)
    ensures CommaFree(old(PairUp(channels[..], keys[..]))) ==> RecoverAll(msgs) == Concat(groups)
  {
    ghost var pairs := PairUp(channels[..], keys[..]);
    var js := new JoinSorter(channels, keys);
    js.Sort();
    ghost var sorted := PairUp(channels[..], keys[..]);
    PermutationKeeps(pairs, sorted);
    msgs := Pack(channels[..], keys[..]);
    groups :| PackedInto(sorted, groups, msgs);
    if CommaFree(pairs) {
      forall i | 0 <= i < |groups| ensures groups[i] != [] {
        PackedAt(groups, i);
      }
      RecoversAll(groups);
    }
  }

  lemma {:induction false} PermutationKeeps(a: seq<Pair>, b: seq<Pair>)
    requires multiset(a) == multiset(b)
    ensures Named(a) ==> Named(b)
    ensures CommaFree(a) ==> CommaFree(b)
  {
    forall i | 0 <= i < |b| ensures b[i] in a {
      assert b[i] in multiset(b);
    }
  }

  predicate NoneEmpty(groups: seq<seq<Pair>>) {
    forall i :: 0 <= i < |groups| ==> groups[i] != []
  }

  /** All messages together are read back as exactly the channels they were made for, in order. */
  lemma {:induction false} RecoversAll(groups: seq<seq<Pair>>)
    requires Sorted(Concat(groups)) && CommaFree(Concat(groups)) && NoneEmpty(groups)
    ensures RecoverAll(Messages(groups)) == Concat(groups)
  {
    forall i | 0 <= i < |groups| ensures Recover(Message(groups[i])) == groups[i] {
      GroupWithin(groups, i);
      SortedKeyedFirst(groups[i]);
      Recovers(groups[i]);
    }
    assert RecoverEach(Messages(groups)) == groups;
  }

  /** Each group is in order if all together are. */
  lemma {:induction false} GroupWithin(groups: seq<seq<Pair>>, i: nat)
    requires Sorted(Concat(groups)) && CommaFree(Concat(groups)) && i < |groups|
    ensures Sorted(groups[i]) && CommaFree(groups[i])
  {
    var n := |groups| - 1;
    SplitProperties(Concat(groups[..n]), groups[n]);
    if i < n {
      GroupWithin(groups[..n], i);
    }
  }

  lemma {:induction false} SplitProperties(a: seq<Pair>, b: seq<Pair>)
    requires Sorted(a + b) && CommaFree(a + b)
    ensures Sorted(a) && Sorted(b) && CommaFree(a) && CommaFree(b)
  {
    var s := a + b;
    assert forall i :: 0 <= i < |a| ==> a[i] == s[i];
    assert forall i :: 0 <= i < |b| ==> b[i] == s[|a| + i];
  }

  // ---- Length

  predicate NeedsColon(param: string) {
    param == "" || param[0] == ':' || ' ' in param
  }

  /** The message as it is written, without CR-LF: its last parameter may need a colon. */
  function Render(m: JoinMessage): string {
    "JOIN " + (if m.keys == "" then Trailing(m.channels) else m.channels + " " + Trailing(m.keys))
  }

  function Trailing(param: string): string {
    if NeedsColon(param) then ":" + param else param
  }

  /** Whether the last parameter needs a colon. */
  predicate HasColon(m: JoinMessage) {
    NeedsColon(if m.keys == "" then m.channels else m.keys)
  }

  /** The exact length of a message. */
  lemma {:induction false} RenderLength(g: seq<Pair>)
    ensures var m := Message(g);
            |Render(m)| == 5 + Weight(g) + (if m.keys == "" then 0 else 1) + (if HasColon(m) then 1 else 0)
  {
  }

  /** A message with several channels takes at most 512 bytes, except 513 exactly when its keys need a colon and
      channels and keys use up all the room there is. */
  lemma {:induction false} RenderFits(groups: seq<seq<Pair>>, i: nat)
    requires Packed(groups) && i < |groups| && |groups[i]| >= 2
    ensures var m := Message(groups[i]);
            && |Render(m)| <= MAX_MESSAGE_LENGTH + 1
            && (|Render(m)| > MAX_MESSAGE_LENGTH
                <==> m.keys != "" && NeedsColon(m.keys) && Weight(groups[i]) == MAX_LENGTH)
  {
    PackedAt(groups, i);
    RenderLength(groups[i]);
  }

  /** Section 2.3 of RFC 1459 leaves 510 bytes before CR-LF. A message keeps to them exactly when its channels and keys
      leave room for the space between them and for a colon. */
  lemma {:induction false} RfcFits(g: seq<Pair>)
    ensures var m := Message(g);
            |Render(m)| <= 510 <==> Weight(g) + (if m.keys == "" then 0 else 1) + (if HasColon(m) then 1 else 0) <= 505
  {
    RenderLength(g);
  }

  lemma {:induction false} TwoGroups(groups: seq<seq<Pair>>, p: Pair, q: Pair)
    requires Packed(groups) && Concat(groups) == [p, q]
    ensures groups == [[p, q]] || (groups == [[p], [q]] && Cost([p], q) > MAX_LENGTH)
  {
    var n := |groups| - 1;
    var init, last := groups[..n], groups[n];
    if |last| == 2 {
      FlatNonEmpty(init);
      assert last == [p, q];
    } else {
      assert last == Concat(groups)[1..] && Concat(init) == Concat(groups)[..1];
      var first := init[n - 1];
      FlatNonEmpty(init[..n - 1]);
      assert Concat(init) == Concat(init[..n - 1]) + first == [p];
      assert Fits(first) && first == [p];
      assert init[..n - 1] == [] && init == [first];
    }
  }

  lemma {:induction false} FlatNonEmpty(groups: seq<seq<Pair>>)
    requires Packed(groups)
    ensures Concat(groups) == [] <==> groups == []
  {
  }

  lemma {:induction false} PairWeight(p: Pair, q: Pair)
    requires p.key != "" && q.key == ""
    ensures Message([p, q]) == JoinMsg(p.channel + "," + q.channel, p.key) && Message([p]) == JoinMsg(p.channel, p.key)
  {
    assert Names([p, q]) == [p.channel, q.channel] && Names([p, q])[1..] == [q.channel] && Names([p]) == [p.channel];
    assert [p, q][..1] == [p] && [p][..0] == [];
    assert KeyList([p]) == [p.key];
    assert KeyList([p, q]) == [p.key];
    assert Join([p.channel, q.channel], ",") == p.channel + "," + Join([q.channel], ",");
  }

  /** The loop does not leave that room: however it packs these two channels, they take 512 bytes, or 513. */
  lemma {:induction false} ExceedsRfc(groups: seq<seq<Pair>>, p: Pair, q: Pair)
    requires p.key != "" && q.key == "" && |p.channel| + |p.key| + |q.channel| == MAX_LENGTH - 1
    requires Packed(groups) && Concat(groups) == [p, q]
    ensures groups == [[p, q]] && |Render(Message(groups[0]))| == if NeedsColon(p.key) then 513 else 512
  {
    PairWeight(p, q);
    TwoGroups(groups, p, q);
    RenderLength([p, q]);
  }

  function Repeat(c: char, n: nat): (r: string)
    ensures |r| == n && forall i :: 0 <= i < n ==> r[i] == c
  {
    seq(n, i => c)
  }

  /** A key that begins with a colon makes it 513. */
  lemma {:induction false} ColonExceeds(groups: seq<seq<Pair>>)
    requires Packed(groups) && Concat(groups) == [Pair("#" + Repeat('a', 250), ":k"), Pair("#" + Repeat('b', 251), "")]
    ensures |groups| == 1 && |Render(Message(groups[0]))| == 513
  {
    ExceedsRfc(groups, Pair("#" + Repeat('a', 250), ":k"), Pair("#" + Repeat('b', 251), ""));
  }
}
