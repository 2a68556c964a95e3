/** The cache of user details that answers WHO (`upstream.go`, and its use in `downstream.go`), together with the
    channel membership it has to agree with. The case mapping is the one the network has settled on. */
module WhoCache {
  import opened Seqs
  import opened Text
  import opened CaseMapping

  datatype UserInfo = UserInfo(nickname: string, username: string, hostname: string, server: string, flags: string,
          account: string, realname: string)

  /** A member's ranks in a channel, as prefix characters. */
  type Ranks = string

  datatype Conn = Conn(cm: Mapping, users: CMap<UserInfo>, channels: CMap<CMap<Ranks>>, caps: set<string>)

  function Field(u: UserInfo, field: char): Option<string> {
    match field
    case 'n' => Some(u.nickname)
    case 'u' => Some(u.username)
    case 'h' => Some(u.hostname)
    case 's' => Some(u.server)
    case 'f' => Some(u.flags)
    case 'a' => Some(u.account)
    case 'r' => Some(u.realname)
    case _ => None
  }

  /** Answered with fixed values, so always available. */
  const STATIC_FIELDS: string := "tcidlo"

  predicate HasField(u: UserInfo, field: char) {
    if Field(u, field).Some? then Field(u, field).value != "" else field in STATIC_FIELDS
  }

  predicate HasFields(u: UserInfo, fields: string) {
    forall i :: 0 <= i < |fields| ==> HasField(u, fields[i])
  }

  method HasWHOXFields(u: UserInfo, fields: string) returns (ok: bool)
    ensures ok == HasFields(u, fields)
  {
    for i := 0 to |fields|
      invariant forall k :: 0 <= k < i ==> HasField(u, fields[k])
    {
      var f := Field(u, fields[i]);
      ok := if f.Some? then f.value != "" else fields[i] in STATIC_FIELDS;
      if !ok {
        return;
      }
    }
    ok := true;
  }

  function Newer(old_: string, update: string): string {
    if update != "" then update else old_
  }

  function UpdateFrom(u: UserInfo, update: UserInfo): UserInfo {
    UserInfo(Newer(u.nickname, update.nickname), Newer(u.username, update.username), Newer(u.hostname, update.hostname),
             Newer(u.server, update.server), Newer(u.flags, update.flags), Newer(u.account, update.account),
                 Newer(u.realname, update.realname))
  }

  /** `cacheUserInfo`: update the user cached under `nick`, moving it when its nickname changes, or cache a new one. */
  function CacheInfo(users: CMap<UserInfo>, cm: Mapping, nick: string, info: UserInfo): CMap<UserInfo> {
    var cached := Get(users, cm, nick);
    if cached.None? then
      var info := if info.nickname != "" then info else info.(nickname := nick);
      Set(users, cm, info.nickname, info)
    else
      var u := UpdateFrom(cached.value, info);
      var k := Fold(cm, nick);
      var users := users[k := users[k].(value := u)];
      if info.nickname != "" && nick != info.nickname then Set(Del(users, cm, nick), cm, u.nickname, u) else users
  }

  /** Every cached user sits under the mapping of its own nickname. */
  predicate Placed(users: CMap<UserInfo>, cm: Mapping) {
    forall k :: k in users ==> k == Fold(cm, users[k].value.nickname)
  }

  predicate Valid(c: Conn) {
    && Keyed(c.users, c.cm) && Placed(c.users, c.cm)
    && Keyed(c.channels, c.cm) && forall ch :: ch in c.channels ==> Keyed(c.channels[ch].value, c.cm)
  }

  /** Caching keeps every user where its nickname says. */
  lemma {:induction false} CacheKeepsPlaced(users: CMap<UserInfo>, cm: Mapping, nick: string, info: UserInfo)
    requires Keyed(users, cm) && Placed(users, cm)
    ensures Keyed(CacheInfo(users, cm, nick, info), cm) && Placed(CacheInfo(users, cm, nick, info), cm)
  {
    var users', k := CacheInfo(users, cm, nick, info), Fold(cm, nick);
    var to := Fold(cm, if info.nickname != "" then info.nickname else nick);
    forall x | x in users' ensures x == Fold(cm, users'[x].originalKey) && x == Fold(cm, users'[x].value.nickname) {
      if x != k && x != to {
        assert x in users && users'[x] == users[x];
      }
    }
  }

  /** The user is then found under its new nickname with what was known and what is new, no longer under the old one,
      and everybody else is left alone. */
  lemma {:induction false} CacheUpdates(users: CMap<UserInfo>, cm: Mapping, nick: string, info: UserInfo, x: string)
    requires Keyed(users, cm) && Placed(users, cm)
    ensures var users', now := CacheInfo(users, cm, nick, info), Newer(nick, info.nickname);
            Get(users', cm, x) ==
            if Same(cm, x, now) then Some(Merged(Get(users, cm, nick), nick, info))
            else if Same(cm, x, nick) then None
            else Get(users, cm, x)
  {
  }

  function Merged(cached: Option<UserInfo>, nick: string, info: UserInfo): UserInfo {
    if cached.Some? then UpdateFrom(cached.value, info) else info.(nickname := Newer(nick, info.nickname))
  }

  // ---- Membership

  /** One channel's part of a nickname change. */
  function RenameMember(members: CMap<Ranks>, cm: Mapping, from: string, to: string): CMap<Ranks> {
    var ranks := Get(members, cm, from);
    if ranks.None? then members else Set(Del(members, cm, from), cm, to, ranks.value)
  }

  function UpdateChannels(channels: CMap<CMap<Ranks>>, f: CMap<Ranks> -> CMap<Ranks>): CMap<CMap<Ranks>> {
    map k | k in channels :: Entry(channels[k].originalKey, f(channels[k].value))
  }

  function UpdateChannel(channels: CMap<CMap<Ranks>>, cm: Mapping, ch: string,
          f: CMap<Ranks> -> CMap<Ranks>): CMap<CMap<Ranks>> {
    var members := Get(channels, cm, ch);
    if members.None? then channels else Set(channels, cm, ch, f(members.value))
  }

  datatype Event =
    | Learn(nick: string, info: UserInfo)
    | Forget(nick: string)
    | Rename(from: string, to: string)
    | Quit(nick: string)
    | Joined(channel: string)
    | Left(channel: string)
    | AddMember(channel: string, nick: string, ranks: Ranks)
    | RemoveMember(channel: string, nick: string)

  const BLANK: UserInfo := UserInfo("", "", "", "", "", "", "")

  function Step(c: Conn, e: Event): Conn {
    match e
    case Learn(nick, info) => c.(users := CacheInfo(c.users, c.cm, nick, info))
    case Forget(nick) => c.(users := Del(c.users, c.cm, nick))
    case Rename(from, to) =>
      c.(channels := UpdateChannels(c.channels, (ms: CMap<Ranks>) => RenameMember(ms, c.cm, from, to)),
         users := CacheInfo(c.users, c.cm, from, BLANK.(nickname := to)))
    case Quit(nick) =>
      c.(channels := UpdateChannels(c.channels, (ms: CMap<Ranks>) => Del(ms, c.cm, nick)),
          users := Del(c.users, c.cm, nick))
    case Joined(channel) => c.(channels := Set(c.channels, c.cm, channel, map[]))
    case Left(channel) => c.(channels := Del(c.channels, c.cm, channel))
    case AddMember(channel, nick, ranks) =>
      c.(channels := UpdateChannel(c.channels, c.cm, channel, (ms: CMap<Ranks>) => Set(ms, c.cm, nick, ranks)))
    case RemoveMember(channel, nick) =>
      c.(channels := UpdateChannel(c.channels, c.cm, channel, (ms: CMap<Ranks>) => Del(ms, c.cm, nick)))
  }

  /** Messages name somebody. */
  predicate Possible(e: Event) {
    match e
    case Learn(nick, _) => nick != ""
    case Rename(from, to) => from != "" && to != ""
    case _ => true
  }

  ghost predicate KeepsKeyed(f: CMap<Ranks> -> CMap<Ranks>, cm: Mapping) {
    forall ms {:trigger f(ms)} :: Keyed(ms, cm) ==> Keyed(f(ms), cm)
  }

  lemma {:induction false} UpdateChannelsKeeps(c: Conn, f: CMap<Ranks> -> CMap<Ranks>)
    requires Valid(c) && KeepsKeyed(f, c.cm)
    ensures Valid(c.(channels := UpdateChannels(c.channels, f)))
  {
  }

  lemma {:induction false} UpdateChannelKeeps(c: Conn, ch: string, f: CMap<Ranks> -> CMap<Ranks>)
    requires Valid(c) && KeepsKeyed(f, c.cm)
    ensures Valid(c.(channels := UpdateChannel(c.channels, c.cm, ch, f)))
  {
  }

  lemma {:induction false} StepKeeps(c: Conn, e: Event)
    requires Valid(c) && Possible(e)
    ensures Valid(Step(c, e))
  {
    match e {
      case Learn(nick, info) => CacheKeepsPlaced(c.users, c.cm, nick, info);
      case Forget(_) =>
      case Rename(from, to) =>
        UpdateChannelsKeeps(c, (ms: CMap<Ranks>) => RenameMember(ms, c.cm, from, to));
        CacheKeepsPlaced(c.users, c.cm, from, BLANK.(nickname := to));
      case Quit(nick) => UpdateChannelsKeeps(c, (ms: CMap<Ranks>) => Del(ms, c.cm, nick));
      case Joined(channel) =>
      case Left(channel) =>
      case AddMember(channel, nick, ranks) => UpdateChannelKeeps(c, channel,
          (ms: CMap<Ranks>) => Set(ms, c.cm, nick, ranks));
      case RemoveMember(channel, nick) => UpdateChannelKeeps(c, channel, (ms: CMap<Ranks>) => Del(ms, c.cm, nick));
    }
  }

  function Run(c: Conn, events: seq<Event>): Conn
    decreases |events|
  {
    if events == [] then c else Run(Step(c, events[0]), events[1..])
  }

  /** Through any sequence of cache updates, renames and membership changes, every cached user stays under the mapping
      of its own nickname, and channels and members under the mapping of theirs. */
  lemma {:induction false} RunKeeps(c: Conn, events: seq<Event>)
    requires Valid(c) && forall i :: 0 <= i < |events| ==> Possible(events[i])
    ensures Valid(Run(c, events))
    decreases |events|
  {
    if events != [] {
      StepKeeps(c, events[0]);
      RunKeeps(Step(c, events[0]), events[1..]);
    }
  }

  function RenamedIn(channel: Entry<CMap<Ranks>>, cm: Mapping, from: string, to: string): Entry<CMap<Ranks>> {
    Entry(channel.originalKey, RenameMember(channel.value, cm, from, to))
  }

  lemma {:induction false} RenamedEverywhere(before: CMap<CMap<Ranks>>, after: CMap<CMap<Ranks>>, cm: Mapping,
          from: string, to: string)
    requires before.Keys == after.Keys && forall k :: k in before ==> after[k] == RenamedIn(before[k], cm, from, to)
    ensures after == UpdateChannels(before, (ms: CMap<Ranks>) => RenameMember(ms, cm, from, to))
  {
    forall k | k in before ensures k in after && after[k] == UpdateChannels(before,
        (ms: CMap<Ranks>) => RenameMember(ms, cm, from, to))[k] {
    }
  }

  method MoveMember(members: CMap<Ranks>, cm: Mapping, from: string, to: string) returns (moved: CMap<Ranks>)
    ensures moved == RenameMember(members, cm, from, to)
  {
    moved := members;
    var k := Casemap(cm, from);
    if k in members {
      var ranks := members[k].value;
      moved := Del(moved, cm, from);
      moved := Set(moved, cm, to, ranks);
    }
  }

  /** The loop over the channels of a nickname change. */
  method MoveMembers(channels: CMap<CMap<Ranks>>, cm: Mapping, from: string,
          to: string) returns (moved: CMap<CMap<Ranks>>)
    ensures moved == UpdateChannels(channels, (ms: CMap<Ranks>) => RenameMember(ms, cm, from, to))
  {
    moved := channels;
    var todo := channels.Keys;
    while todo != {}
      invariant todo <= channels.Keys == moved.Keys
      invariant forall k :: k in channels ==>
          moved[k] == if k in todo then channels[k] else RenamedIn(channels[k], cm, from, to)
    {
      var k :| k in todo;
      var members := MoveMember(moved[k].value, cm, from, to);
      moved := moved[k := moved[k].(value := members)];
      todo := todo - {k};
    }
    RenamedEverywhere(channels, moved, cm, from, to);
  }

  class UserCache {
    var cm: Mapping
    var users: CMap<UserInfo>
    var channels: CMap<CMap<Ranks>>
    var caps: set<string>

    ghost function State(): Conn
      reads this
    {
      Conn(cm, users, channels, caps)
    }

    method CacheUserInfo(nick: string, info: UserInfo)
      requires nick != "" && Valid(State())
      modifies this`users
      ensures State() == Step(old(State()), Learn(nick, info)) && Valid(State())
    {
      CacheKeepsPlaced(users, cm, nick, info);
      var k := Casemap(cm, nick);
      if k !in users {
        var u := if info.nickname != "" then info else info.(nickname := nick);
        users := Set(users, cm, u.nickname, u);
      } else {
        var u := UpdateFrom(users[k].value, info);
        users := users[k := users[k].(value := u)];
        if info.nickname != "" && nick != info.nickname {
          users := Del(users, cm, nick);
          users := Set(users, cm, u.nickname, u);
        }
      }
    }

    /** The state's part of handling NICK: the member moves in every channel it is in, then the cached user does. */
    method HandleNick(from: string, to: string)
      requires from != "" && to != "" && Valid(State())
      modifies this`users, this`channels
      ensures State() == Step(old(State()), Rename(from, to)) && Valid(State())
    {
      StepKeeps(State(), Rename(from, to));
      UpdateChannelsKeeps(State(), (ms: CMap<Ranks>) => RenameMember(ms, old(cm), from, to));
      channels := MoveMembers(channels, cm, from, to);
      CacheUserInfo(from, BLANK.(nickname := to));
    }
  }

  // ---- Answering WHO from the cache

  const DEFAULT_FIELDS: string := "cuhsnfdr"

  predicate Trackable(c: Conn, fields: string) {
    && ('a' in fields ==> "account-notify" in c.caps)
    && ('f' in fields ==> "away-notify" in c.caps)
  }

  predicate CachedWith(c: Conn, nick: string, fields: string) {
    var u := Get(c.users, c.cm, nick); u.Some? && HasFields(u.value, fields)
  }

  /** All members are cached with the requested fields. */
  predicate MembersCached(c: Conn, members: CMap<Ranks>, fields: string) {
    forall k :: k in members ==> CachedWith(c, members[k].originalKey, fields)
  }

  /** The answer lists every member exactly once, each with all requested fields. */
  predicate Answers(c: Conn, members: CMap<Ranks>, fields: string, l: seq<UserInfo>) {
    && |l| == |members|
    && (forall i :: 0 <= i < |l| ==> HasFields(l[i], fields) && Get(members, c.cm, l[i].nickname).Some?)
    && (forall i, j :: 0 <= i < j < |l| ==> !Same(c.cm, l[i].nickname, l[j].nickname))
    && (forall k :: k in members ==> exists i :: 0 <= i < |l| && Fold(c.cm, l[i].nickname) == k)
  }

  /** `getCachedWHO`: `mask` is a nickname or a channel. An answer for a channel names exactly its members, so looking
      up the membership of each listed nickname succeeds; there is no answer exactly when some member is not fully
      cached. */
  method GetCachedWHO(c: Conn, mask: string, fields0: string) returns (l: Option<seq<UserInfo>>)
    requires Valid(c)
    ensures var fields := if fields0 == "" then DEFAULT_FIELDS else fields0;
            var u, members := Get(c.users, c.cm, mask), Get(c.channels, c.cm, mask);
            if !Trackable(c, fields) then l.None?
            else if u.Some? then l == (if HasFields(u.value, fields) then Some([u.value]) else None)
            else if members.None? then l.None?
            else if MembersCached(c, members.value, fields) then l.Some? && Answers(c, members.value, fields, l.value)
            else l.None?
  {
    var fields := fields0;
    if fields == "" {
      fields := DEFAULT_FIELDS;
    }
    if ('a' in fields && "account-notify" !in c.caps) || ('f' in fields && "away-notify" !in c.caps) {
      return None;
    }
    var u := Get(c.users, c.cm, mask);
    if u.Some? {
      var has := HasWHOXFields(u.value, fields);
      return if has then Some([u.value]) else None;
    }
    var members := Get(c.channels, c.cm, mask);
    if members.None? {
      return None;
    }
    assert Fold(c.cm, mask) in c.channels;
    l := CollectMembers(c, members.value, fields);
  }

  /** `l` holds the cached details of the members `keys`, in that order. */
  ghost predicate Lists(c: Conn, members: CMap<Ranks>, fields: string, keys: seq<string>, l: seq<UserInfo>) {
    && |keys| == |l|
    && forall i :: 0 <= i < |keys| ==>
        keys[i] in members && Get(c.users, c.cm, members[keys[i]].originalKey) == Some(l[i]) && HasFields(l[i], fields)
  }

  lemma {:induction false} ListsMember(c: Conn, members: CMap<Ranks>, fields: string, keys: seq<string>,
          l: seq<UserInfo>, i: nat)
    requires Valid(c) && Keyed(members, c.cm) && Lists(c, members, fields, keys, l) && i < |keys|
    ensures Fold(c.cm, l[i].nickname) == keys[i] && CachedWith(c, members[keys[i]].originalKey, fields)
  {
    var k := Fold(c.cm, members[keys[i]].originalKey);
    assert k == keys[i] && c.users[k].value == l[i];
  }

  lemma {:induction false} ListsAnswers(c: Conn, members: CMap<Ranks>, fields: string, keys: seq<string>,
          l: seq<UserInfo>)
    requires Valid(c) && Keyed(members, c.cm) && Lists(c, members, fields, keys, l)
    requires Distinct(keys) && |keys| == |members| && forall k :: k in members ==> k in keys
    ensures Answers(c, members, fields, l) && MembersCached(c, members, fields)
  {
    forall i | 0 <= i < |l| ensures Fold(c.cm, l[i].nickname) == keys[i] {
      ListsMember(c, members, fields, keys, l, i);
    }
    forall k | k in members
      ensures CachedWith(c, members[k].originalKey, fields)
      ensures exists i :: 0 <= i < |l| && Fold(c.cm, l[i].nickname) == k
    {
      var i :| 0 <= i < |keys| && keys[i] == k;
      ListsMember(c, members, fields, keys, l, i);
    }
  }

  /** Collects the members' cached details in whatever order iterating over them gives. */
  method CollectMembers(c: Conn, members: CMap<Ranks>, fields: string) returns (r: Option<seq<UserInfo>>)
    requires Valid(c) && Keyed(members, c.cm)
    ensures if MembersCached(c, members, fields) then r.Some? && Answers(c, members, fields, r.value) else r.None?
  {
    var l: seq<UserInfo> := [];
    ghost var keys: seq<string> := [];
    var todo := members.Keys;
    while todo != {}
      invariant todo <= members.Keys && |keys| + |todo| == |members|
      invariant Lists(c, members, fields, keys, l) && Distinct(keys)
      invariant forall k :: k in members ==> (k in todo <==> k !in keys)
    {
      var k :| k in todo;
      var u := Get(c.users, c.cm, members[k].originalKey);
      if u.None? {
        return None;
      }
      var has := HasWHOXFields(u.value, fields);
      if !has {
        return None;
      }
      l, keys, todo := l + [u.value], keys + [k], todo - {k};
    }
    ListsAnswers(c, members, fields, keys, l);
    r := Some(l);
  }

  // ---- When the case mapping changes

  /** The mapping identifies every user's nickname with the key the user was first cached under. */
  predicate Settled(users: CMap<UserInfo>, b: Mapping) {
    forall k :: k in users ==> Same(b, users[k].value.nickname, users[k].originalKey)
  }

  /** A change to any mapping keeps all users in place, whichever entries survive it, exactly when the mapping
      identifies every user's nickname with the key the user was first cached under. */
  lemma {:induction false} RemapKeepsPlaced(users: CMap<UserInfo>, b: Mapping)
    ensures (forall users' :: Remapped(users, users', b) ==> Placed(users', b)) <==> Settled(users, b)
  {
    if Settled(users, b) {
      forall users' | Remapped(users, users', b) ensures Placed(users', b) {
        SettledStaysPlaced(users, users', b);
      }
    } else {
      var k :| k in users && !Same(b, users[k].value.nickname, users[k].originalKey);
      var users' := RemapKeeping(users, b, k);
      assert !Placed(users', b) by { assert users'[Fold(b, users[k].originalKey)] == users[k]; }
    }
  }

  lemma {:induction false} SettledStaysPlaced(users: CMap<UserInfo>, users': CMap<UserInfo>, b: Mapping)
    requires Settled(users, b) && Remapped(users, users', b)
    ensures Keyed(users', b) && Placed(users', b)
  {
    forall k' | k' in users' ensures k' == Fold(b, users'[k'].value.nickname) && k' == Fold(b, users'[k'].originalKey) {
      var k :| k in users && users'[k'] == users[k] && k' == Fold(b, users[k].originalKey);
      assert Same(b, users[k].value.nickname, users[k].originalKey);
    }
  }

  /** A change of the mapping that the entry at `keep` survives. */
  lemma {:induction false} RemapKeeping(users: CMap<UserInfo>, b: Mapping,
          keep: string) returns (users': CMap<UserInfo>)
    requires keep in users
    ensures Remapped(users, users', b)
    ensures Fold(b, users[keep].originalKey) in users' && users'[Fold(b, users[keep].originalKey)] == users[keep]
  {
    var place := Fold(b, users[keep].originalKey);
    users' := map[place := users[keep]];
    var todo := users.Keys - {keep};
    while todo != {}
      invariant todo <= users.Keys && place in users' && users'[place] == users[keep]
      invariant forall k :: k in users && k !in todo ==> Fold(b, users[k].originalKey) in users'
      invariant forall k' :: k' in users' ==> exists k ::
          k in users && users'[k'] == users[k] && k' == Fold(b, users[k].originalKey)
    {
      var k :| k in todo;
      var k' := Fold(b, users[k].originalKey);
      if k' !in users' {
        users' := users'[k' := users[k]];
      }
      todo := todo - {k};
    }
  }

  /** A coarser mapping keeps users in place, whichever entries survive. */
  lemma {:induction false} CoarserKeepsPlaced(users: CMap<UserInfo>, users': CMap<UserInfo>, a: Mapping, b: Mapping)
    requires Keyed(users, a) && Placed(users, a) && Coarser(a, b) && Remapped(users, users', b)
    ensures Keyed(users', b) && Placed(users', b)
  {
    forall k | k in users ensures Same(b, users[k].value.nickname, users[k].originalKey) {
      CoarserIdentifiesMore(a, b, users[k].value.nickname, users[k].originalKey);
    }
    SettledStaysPlaced(users, users', b);
  }

  /** A finer one need not: a user first seen as "{", then seen as "[", is never in place under ascii. */
  lemma {:induction false} UnsettledMisplaces()
    ensures var users := CacheInfo(CacheInfo(map[], Rfc1459, "{", BLANK), Rfc1459, "[", BLANK.(nickname := "["));
            && Keyed(users, Rfc1459) && Placed(users, Rfc1459) && !Settled(users, Ascii)
            && forall users' :: Remapped(users, users', Ascii) ==> !Placed(users', Ascii)
  {
    assert Fold(Rfc1459, "{") == "[" == Fold(Rfc1459, "[");
    assert Fold(Ascii, "{") == "{" && Fold(Ascii, "[") == "[";
    var users := CacheInfo(CacheInfo(map[], Rfc1459, "{", BLANK), Rfc1459, "[", BLANK.(nickname := "["));
    assert users == map["[" := Entry("{", BLANK.(nickname := "["))];
    assert "[" in users;
    forall users' | Remapped(users, users', Ascii) ensures !Placed(users', Ascii) {
      assert Fold(Ascii, users["["].originalKey) in users';
      var k: string :| k in users && users'["{"] == users[k];
      var entry: Entry<UserInfo> := users'["{"];
      assert entry.value.nickname == "[";
    }
  }
}
