/** The per-user event loop: the network table, the downstream connections bound to it, automatic away status and the
    network limit (`user.go`, `updateAway` in `upstream.go`, AWAY in `downstream.go`). Objects the program tells apart
    by their address carry a `handle` or an `id` here. */
module UserLoop {
  import opened Text

  /** A registered upstream connection, and the last AWAY command issued on it: away, back, or none yet. */
  datatype Upstream = Upstream(away: bool, issued: Option<bool>)

  datatype Network = Network(handle: nat, id: nat, name: string, enabled: bool, autoAway: bool, conn: Option<Upstream>)

  /** A downstream connection; `network` is the handle of the network it is bound to, if any. */
  datatype Downstream = Downstream(id: nat, network: Option<nat>, away: bool, closed: bool)

  datatype User = User(networks: seq<Network>, conns: seq<Downstream>, numConns: int, nextHandle: nat)

  /** A network's settings as requested; `urlOk` tells whether the checks on its URL pass. */
  datatype Record = Record(name: string, enabled: bool, autoAway: bool, urlOk: bool)

  datatype Event =
    | UpstreamConnected(handle: nat)
    | UpstreamDisconnected(handle: nat)
    | DownstreamConnected(id: nat, network: Option<nat>, away: bool)
    | DownstreamDisconnected(id: nat)
    | SetAway(id: nat, away: bool)
    | ConnClosed(id: nat)
    | Create(record: Record, newId: nat, ignoreLimit: bool)
    | Update(id: nat, record: Record, ignoreLimit: bool)
    | Delete(id: nat)

  // ---- Away status

  /** Every downstream connection bound to the network is away; also when there are none. */
  predicate AllAway(conns: seq<Downstream>, handle: nat) {
    forall d :: d in conns && d.network == Some(handle) ==> d.away
  }

  function UpdateAway(n: Network, conns: seq<Downstream>): Network {
    if n.conn.None? || !n.autoAway then n else
    var away := AllAway(conns, n.handle);
    if away == n.conn.value.away then n else n.(conn := Some(Upstream(away, Some(away))))
  }

  function UpdateAllAway(networks: seq<Network>, conns: seq<Downstream>): (r: seq<Network>)
    ensures |r| == |networks| && forall i :: 0 <= i < |r| ==> r[i] == UpdateAway(networks[i], conns)
  {
    seq(|networks|, i requires 0 <= i < |networks| => UpdateAway(networks[i], conns))
  }

  // ---- The table

  /** The position of the network with this handle, or the length of the table. */
  function IndexOf(networks: seq<Network>, handle: nat): (i: nat)
    ensures i <= |networks|
    ensures i < |networks| ==> networks[i].handle == handle
    ensures i == |networks| ==> forall n :: n in networks ==> n.handle != handle
  {
    if networks == [] then 0 else if networks[0].handle == handle then 0 else 1 + IndexOf(networks[1..], handle)
  }

  function IndexOfId(networks: seq<Network>, id: nat): (i: nat)
    ensures i <= |networks|
    ensures i < |networks| ==> networks[i].id == id
    ensures i == |networks| ==> forall n :: n in networks ==> n.id != id
  {
    if networks == [] then 0 else if networks[0].id == id then 0 else 1 + IndexOfId(networks[1..], id)
  }

  function IndexOfConn(conns: seq<Downstream>, id: nat): (i: nat)
    ensures i <= |conns|
    ensures i < |conns| ==> conns[i].id == id
    ensures i == |conns| ==> forall d :: d in conns ==> d.id != id
  {
    if conns == [] then 0 else if conns[0].id == id then 0 else 1 + IndexOfConn(conns[1..], id)
  }

  function RemoveAt<T>(s: seq<T>, i: nat): seq<T>
    requires i < |s|
  {
    s[..i] + s[i + 1..]
  }

  /** Position `j` of a sequence without its item at `i`, in the sequence with it. */
  function Skip(j: int, i: nat): int {
    if j < i then j else j + 1
  }

  lemma {:induction false} RemoveAtIs<T>(s: seq<T>, i: nat)
    requires i < |s|
    ensures |RemoveAt(s, i)| == |s| - 1
    ensures forall j :: 0 <= j < |s| - 1 ==> RemoveAt(s, i)[j] == s[Skip(j, i)]
  {
  }

  /** Sorting by ID, one network at a time. */
  function Insert(networks: seq<Network>, n: Network): (r: seq<Network>)
    ensures |r| == |networks| + 1
    ensures forall x :: x in r <==> x in networks || x == n
  {
    if networks == [] || n.id < networks[0].id then [n] + networks
    else
      assert networks == [networks[0]] + networks[1..];
      [networks[0]] + Insert(networks[1..], n)
  }

  function SortById(networks: seq<Network>): seq<Network> {
    if networks == [] then [] else Insert(SortById(networks[..|networks| - 1]), networks[|networks| - 1])
  }

  function CountEnabled(networks: seq<Network>): nat {
    if networks == [] then 0 else (if networks[0].enabled then 1 else 0) + CountEnabled(networks[1..])
  }

  /** The limit in force: the user's own, else the server's; negative means none. */
  function Limit(userMax: int, serverMax: int): Option<nat> {
    if userMax >= 0 then Some(userMax) else if serverMax >= 0 then Some(serverMax) else None
  }

  predicate CanEnable(networks: seq<Network>, limit: Option<nat>) {
    limit.Some? ==> CountEnabled(networks) < limit.value
  }

  /** `checkNetwork`: the name is usable and no other network has it. */
  predicate NameOk(networks: seq<Network>, record: Record, id: nat) {
    && record.urlOk && record.name != "" && record.name[0] != '-'
    && forall n :: n in networks ==> n.name != record.name || n.id == id
  }

  predicate Refused(networks: seq<Network>, record: Record, id: nat, enforce: bool, limit: Option<nat>) {
    (enforce && record.enabled && !CanEnable(networks, limit)) || !NameOk(networks, record, id)
  }

  /** Whether the limit is checked when a network is changed: not for one that counts already. */
  predicate Enforced(networks: seq<Network>, id: nat, ignoreLimit: bool)
    requires IndexOfId(networks, id) < |networks|
  {
    !ignoreLimit && !networks[IndexOfId(networks, id)].enabled
  }

  function Rebind(conns: seq<Downstream>, from: nat, to: nat): (r: seq<Downstream>)
    ensures |r| == |conns|
    ensures forall i :: 0 <= i < |r| ==>
        r[i] == if conns[i].network == Some(from) then conns[i].(network := Some(to)) else conns[i]
  {
    seq(|conns|, i requires 0 <= i < |conns| =>
        if conns[i].network == Some(from) then conns[i].(network := Some(to)) else conns[i])
  }

  function CloseBound(conns: seq<Downstream>, handle: nat): (r: seq<Downstream>)
    ensures |r| == |conns|
    ensures forall i :: 0 <= i < |r| ==>
        r[i] == if conns[i].network == Some(handle) then conns[i].(closed := true) else conns[i]
  {
    seq(|conns|, i requires 0 <= i < |conns| =>
        if conns[i].network == Some(handle) then conns[i].(closed := true) else conns[i])
  }

  function NewNetwork(handle: nat, id: nat, record: Record): Network {
    Network(handle, id, record.name, record.enabled, record.autoAway, None)
  }

  // ---- Steps

  /** What the rest of the program guarantees: new networks and connections have fresh IDs; connections are bound to
      networks of the table; only existing networks are updated or deleted. */
  predicate Possible(u: User, e: Event) {
    match e
    case DownstreamConnected(id, network, _) =>
      IndexOfConn(u.conns, id) == |u.conns| && (network.Some? ==> IndexOf(u.networks, network.value) < |u.networks|)
    case Create(_, newId, _) => newId > 0 && IndexOfId(u.networks, newId) == |u.networks|
    case Update(id, _, _) => IndexOfId(u.networks, id) < |u.networks|
    case Delete(id) => IndexOfId(u.networks, id) < |u.networks|
    case _ => true
  }

  /** `updateNetwork`: a new network object takes the place of the old one, and its clients move to it. */
  function Replace(u: User, id: nat, record: Record, enforce: bool, limit: Option<nat>): User
    requires IndexOfId(u.networks, id) < |u.networks|
  {
    if Refused(u.networks, record, id, enforce, limit) then u else
    var i := IndexOfId(u.networks, id);
    User(SortById(RemoveAt(u.networks, i) + [NewNetwork(u.nextHandle, id, record)]),
         CloseBound(Rebind(u.conns, u.networks[i].handle, u.nextHandle), u.networks[i].handle),
         u.numConns, u.nextHandle + 1)
  }

  function Step(u: User, e: Event, limit: Option<nat>): User
    requires Possible(u, e)
  {
    match e
    case UpstreamConnected(h) =>
      var i := IndexOf(u.networks, h);
      if i == |u.networks| then u else
      u.(networks := u.networks[i := UpdateAway(u.networks[i].(conn := Some(Upstream(false, None))), u.conns)])
    case UpstreamDisconnected(h) =>
      var i := IndexOf(u.networks, h);
      if i == |u.networks| then u else u.(networks := u.networks[i := u.networks[i].(conn := None)])
    case DownstreamConnected(id, network, away) =>
      var conns := u.conns + [Downstream(id, network, away, false)];
      User(UpdateAllAway(u.networks, conns), conns, u.numConns + 1, u.nextHandle)
    case DownstreamDisconnected(id) =>
      var i := IndexOfConn(u.conns, id);
      var conns := if i == |u.conns| then u.conns else RemoveAt(u.conns, i);
      User(UpdateAllAway(u.networks, conns), conns, if i == |u.conns| then u.numConns else u.numConns - 1, u.nextHandle)
    case SetAway(id, away) =>
      var i := IndexOfConn(u.conns, id);
      if i == |u.conns| || u.conns[i].closed then u else
      var conns := u.conns[i := u.conns[i].(away := away)];
      var k := if u.conns[i].network.Some? then IndexOf(u.networks, u.conns[i].network.value) else |u.networks|;
      u.(conns := conns, networks := if k == |u.networks| then u.networks
          else u.networks[k := UpdateAway(u.networks[k], conns)])
    case ConnClosed(id) =>
      var i := IndexOfConn(u.conns, id);
      if i == |u.conns| then u else u.(conns := u.conns[i := u.conns[i].(closed := true)])
    case Create(record, newId, ignoreLimit) =>
      if Refused(u.networks, record, 0, !ignoreLimit, limit) then u else
      u.(networks := SortById(u.networks + [NewNetwork(u.nextHandle, newId, record)]), nextHandle := u.nextHandle + 1)
    case Update(id, record, ignoreLimit) => Replace(u, id, record, Enforced(u.networks, id, ignoreLimit), limit)
    case Delete(id) =>
      var i := IndexOfId(u.networks, id);
      u.(networks := RemoveAt(u.networks, i), conns := CloseBound(u.conns, u.networks[i].handle))
  }

  /** The update is not refused. */
  predicate Accepted(u: User, e: Event, limit: Option<nat>)
    requires e.Update? && Possible(u, e)
  {
    !Refused(u.networks, e.record, e.id, Enforced(u.networks, e.id, e.ignoreLimit), limit)
  }

  // ---- The invariant

  predicate Sorted(networks: seq<Network>) {
    forall i, j :: 0 <= i < j < |networks| ==> networks[i].id < networks[j].id
  }

  /** The ID 0 stands for a network that has not been stored yet. */
  predicate Stored(networks: seq<Network>) {
    forall n :: n in networks ==> n.id > 0
  }

  predicate NamesDiffer(networks: seq<Network>) {
    forall a, b :: a in networks && b in networks && a.name == b.name ==> a.id == b.id
  }

  predicate HandlesDiffer(networks: seq<Network>, nextHandle: nat) {
    && (forall a, b :: a in networks && b in networks && a.handle == b.handle ==> a.id == b.id)
    && (forall a :: a in networks ==> a.handle < nextHandle)
  }

  predicate InTable(networks: seq<Network>, handle: nat) {
    exists n :: n in networks && n.handle == handle
  }

  /** Every open downstream connection is bound to a network of the table, or to none. */
  predicate Bound(networks: seq<Network>, conns: seq<Downstream>) {
    forall d :: d in conns && !d.closed && d.network.Some? ==> InTable(networks, d.network.value)
  }

  predicate HandlesKnown(conns: seq<Downstream>, nextHandle: nat) {
    forall d :: d in conns && d.network.Some? ==> d.network.value < nextHandle
  }

  predicate IdsDiffer(conns: seq<Downstream>) {
    forall i, j :: 0 <= i < j < |conns| ==> conns[i].id != conns[j].id
  }

  /** With automatic away, the connection is marked away exactly when all its clients are, and that is what was last
      said on it. */
  predicate AwayExact(n: Network, conns: seq<Downstream>) {
    n.conn.Some? ==>
      && (n.conn.value.away <==> n.conn.value.issued == Some(true))
      && (n.autoAway ==> (n.conn.value.away <==> AllAway(conns, n.handle)))
  }

  predicate AllExact(networks: seq<Network>, conns: seq<Downstream>) {
    forall n :: n in networks ==> AwayExact(n, conns)
  }

  predicate Valid(u: User) {
    && Sorted(u.networks) && Stored(u.networks) && NamesDiffer(u.networks) && HandlesDiffer(u.networks, u.nextHandle)
    && Bound(u.networks, u.conns) && HandlesKnown(u.conns, u.nextHandle) && IdsDiffer(u.conns)
    && u.numConns == |u.conns|
    && AllExact(u.networks, u.conns)
  }

  // ---- Table operations

  lemma {:induction false} InsertSorted(networks: seq<Network>, n: Network)
    requires Sorted(networks) && forall x :: x in networks ==> x.id != n.id
    ensures Sorted(Insert(networks, n))
  {
    if networks == [] || n.id < networks[0].id {
    } else {
      var rest := Insert(networks[1..], n);
      InsertSorted(networks[1..], n);
      forall j | 0 <= j < |rest| ensures networks[0].id < rest[j].id {
        assert rest[j] in rest;
        if rest[j] != n {
          var k :| 0 <= k < |networks[1..]| && networks[1..][k] == rest[j];
          assert networks[1..][k] == networks[k + 1];
        } else {
          assert networks[0] in networks;
        }
      }
    }
  }

  /** Inserting a network with a larger ID than all others appends it. */
  lemma {:induction false} InsertLast(networks: seq<Network>, n: Network)
    requires forall x :: x in networks ==> x.id <= n.id
    ensures Insert(networks, n) == networks + [n]
  {
    if networks != [] {
      assert networks[0] in networks;
      InsertLast(networks[1..], n);
    }
  }

  lemma {:induction false} SortNext(init: seq<Network>, n: Network)
    ensures SortById(init + [n]) == Insert(SortById(init), n)
  {
    assert (init + [n])[..|init|] == init;
  }

  /** A sorted table is left as it is. */
  lemma {:induction false} SortSorted(networks: seq<Network>)
    requires Sorted(networks)
    ensures SortById(networks) == networks
  {
    if networks != [] {
      var init, n := networks[..|networks| - 1], networks[|networks| - 1];
      assert networks == init + [n];
      LastIsLargest(init, n);
      SortSorted(init);
      SortNext(init, n);
      InsertLast(init, n);
    }
  }

  lemma {:induction false} LastIsLargest(init: seq<Network>, n: Network)
    requires Sorted(init + [n])
    ensures Sorted(init) && forall x :: x in init ==> x.id <= n.id
  {
    var all := init + [n];
    assert forall i :: 0 <= i < |init| ==> all[i] == init[i];
    forall x | x in init ensures x.id <= n.id {
      var k :| 0 <= k < |init| && init[k] == x;
      assert all[k].id < all[|init|].id;
    }
  }

  /** Adding a network with a new ID to a sorted table and sorting gives a sorted table with that network added. */
  lemma {:induction false} AddSorted(networks: seq<Network>, n: Network)
    requires Sorted(networks) && forall x :: x in networks ==> x.id != n.id
    ensures Sorted(SortById(networks + [n])) && SortById(networks + [n]) == Insert(networks, n)
  {
    assert (networks + [n])[..|networks|] == networks;
    SortSorted(networks);
    InsertSorted(networks, n);
  }

  lemma {:induction false} RemoveSorted(networks: seq<Network>, i: nat)
    requires i < |networks| && Sorted(networks)
    ensures Sorted(RemoveAt(networks, i))
    ensures forall x :: x in RemoveAt(networks, i) ==> x in networks && x.id != networks[i].id
    ensures forall x :: x in networks && x != networks[i] ==> x in RemoveAt(networks, i)
  {
    var r := RemoveAt(networks, i);
    RemoveAtIs(networks, i);
    forall x | x in r ensures x in networks && x.id != networks[i].id {
      var j :| 0 <= j < |r| && r[j] == x;
      assert x == networks[Skip(j, i)];
    }
    forall x | x in networks && x != networks[i] ensures x in r {
      RemoveKeepsOthers(networks, i, x);
    }
  }

  lemma {:induction false} RemoveKeepsOthers(networks: seq<Network>, i: nat, x: Network)
    requires i < |networks| && x in networks && x != networks[i]
    ensures x in RemoveAt(networks, i)
  {
    var k :| 0 <= k < |networks| && networks[k] == x;
    RemoveAtIs(networks, i);
    assert RemoveAt(networks, i)[if k < i then k else k - 1] == x;
  }

  // ---- Away status is kept exact

  lemma {:induction false} UpdateAwayIsExact(n: Network, conns: seq<Downstream>)
    requires n.conn.Some? ==> (n.conn.value.away <==> n.conn.value.issued == Some(true))
    ensures AwayExact(UpdateAway(n, conns), conns)
  {
  }

  lemma {:induction false} UpdateAllIsExact(networks: seq<Network>, conns: seq<Downstream>)
    requires forall n :: n in networks && n.conn.Some? ==> (n.conn.value.away <==> n.conn.value.issued == Some(true))
    ensures AllExact(UpdateAllAway(networks, conns), conns)
  {
    var r := UpdateAllAway(networks, conns);
    forall n | n in r ensures AwayExact(n, conns) {
      var i :| 0 <= i < |r| && r[i] == n;
      assert networks[i] in networks;
      UpdateAwayIsExact(networks[i], conns);
    }
  }

  /** Two tables that differ only in their upstream connections. */
  predicate SameTable(a: seq<Network>, b: seq<Network>) {
    |a| == |b| && forall i :: 0 <= i < |a| ==> a[i].(conn := None) == b[i].(conn := None)
  }

  lemma {:induction false} SameMember(a: seq<Network>, b: seq<Network>, x: Network) returns (y: Network)
    requires SameTable(a, b) && x in b
    ensures y in a && y.id == x.id && y.name == x.name && y.handle == x.handle
  {
    var i :| 0 <= i < |b| && b[i] == x;
    y := a[i];
    assert a[i].(conn := None) == b[i].(conn := None);
  }

  lemma {:induction false} SameTableSorted(a: seq<Network>, b: seq<Network>)
    requires SameTable(a, b) && Sorted(a) && Stored(a)
    ensures Sorted(b) && Stored(b)
  {
    forall i | 0 <= i < |a| ensures a[i].id == b[i].id {
      assert a[i].(conn := None) == b[i].(conn := None);
    }
    forall x | x in b ensures x.id > 0 {
      var y := SameMember(a, b, x);
    }
  }

  lemma {:induction false} SameTableDiffers(a: seq<Network>, b: seq<Network>, nextHandle: nat)
    requires SameTable(a, b) && NamesDiffer(a) && HandlesDiffer(a, nextHandle)
    ensures NamesDiffer(b) && HandlesDiffer(b, nextHandle)
  {
    forall x, y | x in b && y in b
      ensures (x.name == y.name ==> x.id == y.id) && (x.handle == y.handle ==> x.id == y.id) && x.handle < nextHandle
    {
      var x' := SameMember(a, b, x);
      var y' := SameMember(a, b, y);
    }
  }

  lemma {:induction false} SameTableBound(a: seq<Network>, b: seq<Network>, conns: seq<Downstream>)
    requires SameTable(a, b) && Bound(a, conns)
    ensures Bound(b, conns)
  {
    forall d | d in conns && !d.closed && d.network.Some? ensures InTable(b, d.network.value) {
      var n :| n in a && n.handle == d.network.value;
      var y := SameMember(b, a, n);
    }
  }

  lemma {:induction false} SameTableKeeps(a: seq<Network>, b: seq<Network>, nextHandle: nat, conns: seq<Downstream>)
    requires SameTable(a, b) && Sorted(a) && Stored(a) && NamesDiffer(a) && HandlesDiffer(a, nextHandle)
        && Bound(a, conns)
    ensures Sorted(b) && Stored(b) && NamesDiffer(b) && HandlesDiffer(b, nextHandle) && Bound(b, conns)
  {
    SameTableSorted(a, b);
    SameTableDiffers(a, b, nextHandle);
    SameTableBound(a, b, conns);
  }

  // ---- Each event keeps the invariant

  lemma {:induction false} UpstreamEventKeeps(u: User, e: Event, limit: Option<nat>)
    requires Valid(u) && (e.UpstreamConnected? || e.UpstreamDisconnected?)
    ensures Valid(Step(u, e, limit))
  {
    var u' := Step(u, e, limit);
    var i := IndexOf(u.networks, e.handle);
    if i < |u.networks| {
      ReplaceOne(u.networks, i, u'.networks[i], u.conns);
      SameTableKeeps(u.networks, u'.networks, u.nextHandle, u.conns);
    }
  }

  lemma {:induction false} ReplaceOne(networks: seq<Network>, i: nat, n: Network, conns: seq<Downstream>)
    requires i < |networks| && n.(conn := None) == networks[i].(conn := None)
    requires AllExact(networks, conns) && AwayExact(n, conns)
    ensures SameTable(networks, networks[i := n]) && AllExact(networks[i := n], conns)
  {
    forall x | x in networks[i := n] ensures AwayExact(x, conns) {
      assert x == n || x in networks;
    }
  }

  /** What an exact status says of the last AWAY command. */
  lemma {:induction false} ExactIssued(networks: seq<Network>, conns: seq<Downstream>, n: Network)
    requires AllExact(networks, conns) && n in networks && n.conn.Some?
    ensures n.conn.value.away <==> n.conn.value.issued == Some(true)
  {
    assert AwayExact(n, conns);
  }

  /** After an update for other clients, the table is the same and every status is exact for them. */
  lemma {:induction false} UpdatedForOthers(networks: seq<Network>, conns: seq<Downstream>, conns': seq<Downstream>)
    requires AllExact(networks, conns)
    ensures SameTable(networks, UpdateAllAway(networks, conns')) && AllExact(UpdateAllAway(networks, conns'), conns')
  {
    forall n | n in networks && n.conn.Some? ensures n.conn.value.away <==> n.conn.value.issued == Some(true) {
      ExactIssued(networks, conns, n);
    }
    UpdateAllIsExact(networks, conns');
    UpdateAllSame(networks, conns');
  }

  lemma {:induction false} UpdateAllSame(networks: seq<Network>, conns: seq<Downstream>)
    ensures SameTable(networks, UpdateAllAway(networks, conns))
  {
  }

  /** One more client, with a new ID and bound to a network of the table, if to any. */
  lemma {:induction false} AddClient(networks: seq<Network>, conns: seq<Downstream>, nextHandle: nat, d: Downstream)
    requires Bound(networks, conns) && HandlesKnown(conns, nextHandle) && IdsDiffer(conns)
    requires forall x :: x in conns ==> x.id != d.id
    requires d.network.Some? ==> d.network.value < nextHandle && InTable(networks, d.network.value)
    ensures Bound(networks, conns + [d]) && HandlesKnown(conns + [d], nextHandle) && IdsDiffer(conns + [d])
  {
    forall i | 0 <= i < |conns| ensures conns[i].id != d.id {
      assert conns[i] in conns;
    }
    forall x | x in conns + [d] ensures x in conns || x == d {
    }
  }

  lemma {:induction false} DownstreamConnectedKeeps(u: User, e: Event, limit: Option<nat>)
    requires Valid(u) && e.DownstreamConnected? && Possible(u, e)
    ensures Valid(Step(u, e, limit))
  {
    var d := Downstream(e.id, e.network, e.away, false);
    if d.network.Some? {
      assert u.networks[IndexOf(u.networks, d.network.value)] in u.networks;
    }
    AddClient(u.networks, u.conns, u.nextHandle, d);
    UpdatedForOthers(u.networks, u.conns, u.conns + [d]);
    SameTableKeeps(u.networks, UpdateAllAway(u.networks, u.conns + [d]), u.nextHandle, u.conns + [d]);
  }

  /** One client less. */
  lemma {:induction false} DropClient(networks: seq<Network>, conns: seq<Downstream>, nextHandle: nat, i: nat)
    requires Bound(networks, conns) && HandlesKnown(conns, nextHandle) && IdsDiffer(conns) && i < |conns|
    ensures var rest := RemoveAt(conns, i); Bound(networks, rest) && HandlesKnown(rest, nextHandle) && IdsDiffer(rest)
  {
    var rest := RemoveAt(conns, i);
    RemoveAtIs(conns, i);
    forall d | d in rest ensures d in conns {
    }
  }

  lemma {:induction false} DownstreamDisconnectedKeeps(u: User, e: Event, limit: Option<nat>)
    requires Valid(u) && e.DownstreamDisconnected?
    ensures Valid(Step(u, e, limit))
  {
    var i := IndexOfConn(u.conns, e.id);
    var conns := if i == |u.conns| then u.conns else RemoveAt(u.conns, i);
    if i < |u.conns| {
      DropClient(u.networks, u.conns, u.nextHandle, i);
    }
    UpdatedForOthers(u.networks, u.conns, conns);
    SameTableKeeps(u.networks, UpdateAllAway(u.networks, conns), u.nextHandle, conns);
  }

  lemma {:induction false} SetAwayKeeps(u: User, e: Event, limit: Option<nat>)
    requires Valid(u) && e.SetAway?
    ensures Valid(Step(u, e, limit))
  {
    var u', i := Step(u, e, limit), IndexOfConn(u.conns, e.id);
    if i < |u.conns| && !u.conns[i].closed {
      ChangeOne(u.networks, u.conns, u.nextHandle, i, u'.conns[i]);
      SetAwayKeepsTable(u, e, limit);
      SameTableKeeps(u.networks, u'.networks, u.nextHandle, u'.conns);
      forall n | n in u'.networks ensures AwayExact(n, u'.conns) {
        SetAwayExact(u, e, limit, n);
      }
    }
  }

  /** Changing one connection's away status, or closing it, keeps the bindings. */
  lemma {:induction false} ChangeOne(networks: seq<Network>, conns: seq<Downstream>, nextHandle: nat, i: nat,
          d: Downstream)
    requires i < |conns| && d.id == conns[i].id && d.network == conns[i].network && (conns[i].closed ==> d.closed)
    requires Bound(networks, conns) && HandlesKnown(conns, nextHandle) && IdsDiffer(conns)
    ensures var conns' := conns[i := d];
        Bound(networks, conns') && HandlesKnown(conns', nextHandle) && IdsDiffer(conns')
  {
    var conns' := conns[i := d];
    assert conns[i] in conns;
    forall x | x in conns' ensures x == d || x in conns {
    }
  }

  lemma {:induction false} SetAwayExact(u: User, e: Event, limit: Option<nat>, n: Network)
    requires Valid(u) && e.SetAway? && n in Step(u, e, limit).networks
    ensures AwayExact(n, Step(u, e, limit).conns)
  {
    var u', i := Step(u, e, limit), IndexOfConn(u.conns, e.id);
    if i < |u.conns| && !u.conns[i].closed {
      var d := u.conns[i];
      var j :| 0 <= j < |u'.networks| && u'.networks[j] == n;
      var k := if d.network.Some? then IndexOf(u.networks, d.network.value) else |u.networks|;
      assert u.networks[j] in u.networks && AwayExact(u.networks[j], u.conns);
      if j == k {
        UpdateAwayIsExact(u.networks[j], u'.conns);
      } else {
        assert n == u.networks[j];
        OtherHandle(u, i, j);
        SameAwayElsewhere(u.conns, i, e.away, n.handle);
      }
    }
  }

  /** A network other than the one a connection is bound to has another handle. */
  lemma {:induction false} OtherHandle(u: User, i: nat, j: nat)
    requires Valid(u) && i < |u.conns| && j < |u.networks|
    requires u.conns[i].network.Some? ==> j != IndexOf(u.networks, u.conns[i].network.value)
    ensures u.conns[i].network != Some(u.networks[j].handle)
  {
    if u.conns[i].network.Some? {
      var k := IndexOf(u.networks, u.conns[i].network.value);
      assert u.networks[j] in u.networks;
      if k < |u.networks| {
        assert u.networks[k] in u.networks;
        assert u.networks[j].id != u.networks[k].id;
      }
    }
  }

  lemma {:induction false} SameAwayElsewhere(conns: seq<Downstream>, i: nat, away: bool, handle: nat)
    requires i < |conns| && conns[i].network != Some(handle)
    ensures AllAway(conns[i := conns[i].(away := away)], handle) == AllAway(conns, handle)
  {
    var conns' := conns[i := conns[i].(away := away)];
    forall d: Downstream | d.network == Some(handle) ensures d in conns <==> d in conns' {
      if d in conns {
        var j :| 0 <= j < |conns| && conns[j] == d;
        assert conns'[j] == d;
      }
    }
  }

  lemma {:induction false} ConnClosedKeeps(u: User, e: Event, limit: Option<nat>)
    requires Valid(u) && e.ConnClosed?
    ensures Valid(Step(u, e, limit))
  {
    var u', i := Step(u, e, limit), IndexOfConn(u.conns, e.id);
    if i < |u.conns| {
      ChangeOne(u.networks, u.conns, u.nextHandle, i, u'.conns[i]);
      forall n | n in u.networks ensures AwayExact(n, u'.conns) {
        assert AwayExact(n, u.conns);
        CloseKeepsAway(u.conns, u'.conns, n.handle);
      }
    }
  }

  /** The same clients, with the same bindings to this network and the same away status. */
  lemma {:induction false} CloseKeepsAway(a: seq<Downstream>, b: seq<Downstream>, handle: nat)
    requires |a| == |b|
    requires forall i :: 0 <= i < |a| ==>
        a[i].away == b[i].away && (a[i].network == Some(handle) <==> b[i].network == Some(handle))
    ensures AllAway(a, handle) == AllAway(b, handle)
  {
    if AllAway(a, handle) {
      forall d | d in b && d.network == Some(handle) ensures d.away {
        var i :| 0 <= i < |b| && b[i] == d;
        assert a[i] in a;
      }
    }
    if AllAway(b, handle) {
      forall d | d in a && d.network == Some(handle) ensures d.away {
        var i :| 0 <= i < |a| && a[i] == d;
        assert b[i] in b;
      }
    }
  }

  lemma {:induction false} CreateKeeps(u: User, e: Event, limit: Option<nat>)
    requires Valid(u) && e.Create? && Possible(u, e)
    ensures Valid(Step(u, e, limit))
  {
    if !Refused(u.networks, e.record, 0, !e.ignoreLimit, limit) {
      var n := NewNetwork(u.nextHandle, e.newId, e.record);
      AddSorted(u.networks, n);
      var u' := Step(u, e, limit);
      forall x | x in u.networks ensures x.name != n.name {
        assert x.name != e.record.name || x.id == 0;
      }
      forall d | d in u.conns && !d.closed && d.network.Some? ensures InTable(u'.networks, d.network.value) {
        var x :| x in u.networks && x.handle == d.network.value;
        assert x in u'.networks;
      }
    }
  }

  /** Taking a network out of the table and closing the clients bound to it. */
  lemma {:induction false} RemoveClosesBound(networks: seq<Network>, conns: seq<Downstream>, nextHandle: nat, i: nat)
    requires Sorted(networks) && Bound(networks, conns) && HandlesKnown(conns, nextHandle) && IdsDiffer(conns)
        && i < |networks|
    ensures var rest, closed := RemoveAt(networks, i), CloseBound(conns, networks[i].handle);
            Bound(rest, closed) && HandlesKnown(closed, nextHandle) && IdsDiffer(closed)
  {
    var rest, closed := RemoveAt(networks, i), CloseBound(conns, networks[i].handle);
    RemoveSorted(networks, i);
    forall d | d in closed && d.network.Some? ensures d.network.value < nextHandle && (!d.closed
        ==> InTable(rest, d.network.value)) {
      var j :| 0 <= j < |closed| && closed[j] == d;
      assert conns[j] in conns && conns[j].network == d.network;
      if !d.closed {
        assert conns[j] == d;
        var x :| x in networks && x.handle == d.network.value;
        assert x in rest;
      }
    }
  }

  lemma {:induction false} DeleteKeeps(u: User, e: Event, limit: Option<nat>)
    requires Valid(u) && e.Delete? && Possible(u, e)
    ensures Valid(Step(u, e, limit))
  {
    var i := IndexOfId(u.networks, e.id);
    var rest, closed := RemoveAt(u.networks, i), CloseBound(u.conns, u.networks[i].handle);
    RemoveSorted(u.networks, i);
    RemoveClosesBound(u.networks, u.conns, u.nextHandle, i);
    forall n | n in rest ensures AwayExact(n, closed) {
      assert n in u.networks && AwayExact(n, u.conns);
      CloseKeepsAway(u.conns, closed, n.handle);
    }
  }

  lemma {:induction false} UpdateKeeps(u: User, e: Event, limit: Option<nat>)
    requires Valid(u) && e.Update? && Possible(u, e)
    ensures Valid(Step(u, e, limit))
  {
    if Accepted(u, e, limit) {
      UpdateKeepsTable(u, e, limit);
      UpdateKeepsConns(u, e, limit);
      var u', gone := Step(u, e, limit), u.networks[IndexOfId(u.networks, e.id)];
      forall x | x in u'.networks ensures AwayExact(x, u'.conns) {
        if x.conn.Some? {
          assert x in u.networks && x.handle != gone.handle && x.handle != u.nextHandle && AwayExact(x, u.conns);
          CloseKeepsAway(u.conns, u'.conns, x.handle);
        }
      }
    }
  }

  lemma {:induction false} UpdateKeepsTable(u: User, e: Event, limit: Option<nat>)
    requires Valid(u) && e.Update? && Possible(u, e) && Accepted(u, e, limit)
    ensures var u', gone := Step(u, e, limit), u.networks[IndexOfId(u.networks, e.id)];
            && Sorted(u'.networks) && Stored(u'.networks) && NamesDiffer(u'.networks)
                && HandlesDiffer(u'.networks, u'.nextHandle)
            && forall x :: x in u'.networks && x.conn.Some? ==>
                x in u.networks && x.handle != gone.handle && x.handle < u.nextHandle
  {
    var i := IndexOfId(u.networks, e.id);
    var gone, n := u.networks[i], NewNetwork(u.nextHandle, e.id, e.record);
    RemoveSorted(u.networks, i);
    AddSorted(RemoveAt(u.networks, i), n);
    ReplacedDiffers(u.networks, Step(u, e, limit).networks, gone, n);
  }

  lemma {:induction false} ReplacedDiffers(a: seq<Network>, b: seq<Network>, gone: Network, n: Network)
    requires Stored(a) && NamesDiffer(a) && HandlesDiffer(a, n.handle) && gone in a && n.id == gone.id && n.conn.None?
    requires forall x :: x in a ==> x.name != n.name || x.id == n.id
    requires forall x :: x in b ==> x == n || (x in a && x.id != gone.id)
    ensures Stored(b) && NamesDiffer(b) && HandlesDiffer(b, n.handle + 1)
    ensures forall x :: x in b && x.conn.Some? ==> x in a && x.handle != gone.handle && x.handle < n.handle
  {
  }

  /** The same clients, with those bound to one network now bound to another. */
  predicate Rebound(a: seq<Downstream>, b: seq<Downstream>, from: nat, to: nat) {
    |a| == |b| && forall j :: 0 <= j < |a| ==>
      b[j].away == a[j].away && b[j].network == (if a[j].network == Some(from) then Some(to) else a[j].network)
  }

  /** Once the clients of a network are bound to another, closing those of the first closes none. */
  lemma {:induction false} PatchedStayOpen(conns: seq<Downstream>, from: nat, to: nat)
    requires from != to
    ensures CloseBound(Rebind(conns, from, to), from) == Rebind(conns, from, to)
  {
  }

  lemma {:induction false} RebindKeeps(a: seq<Network>, b: seq<Network>, conns: seq<Downstream>, gone: Network,
          n: Network)
    requires Bound(a, conns) && HandlesKnown(conns, n.handle) && IdsDiffer(conns)
    requires n in b && forall x :: x in a && x != gone ==> x in b
    ensures var conns' := Rebind(conns, gone.handle, n.handle);
            Bound(b, conns') && HandlesKnown(conns', n.handle + 1) && IdsDiffer(conns')
                && Rebound(conns, conns', gone.handle, n.handle)
  {
    var conns' := Rebind(conns, gone.handle, n.handle);
    forall d | d in conns' && d.network.Some?
      ensures d.network.value < n.handle + 1 && (!d.closed ==> InTable(b, d.network.value))
    {
      var j :| 0 <= j < |conns'| && conns'[j] == d;
      assert conns[j] in conns;
      if conns[j].network != Some(gone.handle) && !d.closed {
        var x :| x in a && x.handle == d.network.value;
        assert x in b;
      }
    }
  }

  lemma {:induction false} UpdateKeepsConns(u: User, e: Event, limit: Option<nat>)
    requires Valid(u) && e.Update? && Possible(u, e) && Accepted(u, e, limit)
    ensures var u' := Step(u, e, limit);
            && Bound(u'.networks, u'.conns) && HandlesKnown(u'.conns, u'.nextHandle) && IdsDiffer(u'.conns)
            && Rebound(u.conns, u'.conns, u.networks[IndexOfId(u.networks, e.id)].handle, u.nextHandle)
  {
    var i := IndexOfId(u.networks, e.id);
    var gone, n := u.networks[i], NewNetwork(u.nextHandle, e.id, e.record);
    RemoveSorted(u.networks, i);
    AddSorted(RemoveAt(u.networks, i), n);
    assert gone in u.networks && gone.handle < u.nextHandle;
    PatchedStayOpen(u.conns, gone.handle, u.nextHandle);
    RebindKeeps(u.networks, Step(u, e, limit).networks, u.conns, gone, n);
  }

  /** Every event keeps the table sorted with distinct names, open connections bound, the counter right and the away
      status exact. */
  lemma {:induction false} StepKeeps(u: User, e: Event, limit: Option<nat>)
    requires Valid(u) && Possible(u, e)
    ensures Valid(Step(u, e, limit))
  {
    match e {
      case UpstreamConnected(_) => UpstreamEventKeeps(u, e, limit);
      case UpstreamDisconnected(_) => UpstreamEventKeeps(u, e, limit);
      case DownstreamConnected(_, _, _) => DownstreamConnectedKeeps(u, e, limit);
      case DownstreamDisconnected(_) => DownstreamDisconnectedKeeps(u, e, limit);
      case SetAway(_, _) => SetAwayKeeps(u, e, limit);
      case ConnClosed(_) => ConnClosedKeeps(u, e, limit);
      case Create(_, _, _) => CreateKeeps(u, e, limit);
      case Update(_, _, _) => UpdateKeeps(u, e, limit);
      case Delete(_) => DeleteKeeps(u, e, limit);
    }
  }

  predicate AllPossible(u: User, events: seq<Event>, limit: Option<nat>)
    decreases |events|
  {
    events == [] || (Possible(u, events[0]) && AllPossible(Step(u, events[0], limit), events[1..], limit))
  }

  function Run(u: User, events: seq<Event>, limit: Option<nat>): User
    requires AllPossible(u, events, limit)
    decreases |events|
  {
    if events == [] then u else Run(Step(u, events[0], limit), events[1..], limit)
  }

  lemma {:induction false} RunKeeps(u: User, events: seq<Event>, limit: Option<nat>)
    requires Valid(u) && AllPossible(u, events, limit)
    ensures Valid(Run(u, events, limit))
    decreases |events|
  {
    if events != [] {
      StepKeeps(u, events[0], limit);
      RunKeeps(Step(u, events[0], limit), events[1..], limit);
    }
  }

  // ---- The network limit

  lemma {:induction false} CountConcat(a: seq<Network>, b: seq<Network>)
    ensures CountEnabled(a + b) == CountEnabled(a) + CountEnabled(b)
  {
    if a == [] {
      assert a + b == b;
    } else {
      assert (a + b)[1..] == a[1..] + b;
      CountConcat(a[1..], b);
    }
  }

  lemma {:induction false} CountInsert(networks: seq<Network>, n: Network)
    ensures CountEnabled(Insert(networks, n)) == CountEnabled(networks) + (if n.enabled then 1 else 0)
  {
    if networks == [] || n.id < networks[0].id {
      assert ([n] + networks)[1..] == networks;
    } else {
      CountInsert(networks[1..], n);
      assert ([networks[0]] + Insert(networks[1..], n))[1..] == Insert(networks[1..], n);
    }
  }

  lemma {:induction false} CountRemove(networks: seq<Network>, i: nat)
    requires i < |networks|
    ensures CountEnabled(networks) == CountEnabled(RemoveAt(networks, i)) + (if networks[i].enabled then 1 else 0)
  {
    assert networks == networks[..i] + ([networks[i]] + networks[i + 1..]);
    CountConcat(networks[..i], [networks[i]] + networks[i + 1..]);
    assert ([networks[i]] + networks[i + 1..])[1..] == networks[i + 1..];
    CountConcat(networks[..i], networks[i + 1..]);
  }

  lemma {:induction false} CountSame(a: seq<Network>, b: seq<Network>)
    requires SameTable(a, b)
    ensures CountEnabled(a) == CountEnabled(b)
  {
    if a != [] {
      assert a[0].(conn := None) == b[0].(conn := None);
      forall i | 0 <= i < |a[1..]| ensures a[1..][i].(conn := None) == b[1..][i].(conn := None) {
        assert a[i + 1].(conn := None) == b[i + 1].(conn := None);
      }
      CountSame(a[1..], b[1..]);
    }
  }

  /** A request that an administrator has exempted from the limit. */
  predicate IgnoresLimit(e: Event) {
    (e.Create? || e.Update?) && e.ignoreLimit
  }

  /** The event makes one more network enabled, if it is let through. */
  predicate Enables(u: User, e: Event)
    requires Possible(u, e)
  {
    match e
    case Create(record, _, _) => record.enabled && NameOk(u.networks, record, 0)
    case Update(id, record, _) =>
      record.enabled && !u.networks[IndexOfId(u.networks, id)].enabled && NameOk(u.networks, record, id)
    case _ => false
  }

  /** From within the limit, the number of enabled networks goes beyond it exactly when it is reached and an event that
      enables one more ignores it. */
  lemma {:induction false} LimitExact(u: User, e: Event, limit: nat)
    requires Valid(u) && Possible(u, e) && CountEnabled(u.networks) <= limit
    ensures CountEnabled(Step(u, e, Some(limit)).networks) > limit
            <==> CountEnabled(u.networks) == limit && Enables(u, e) && IgnoresLimit(e)
  {
    match e {
      case Create(_, _, _) => CreateCounts(u, e, limit);
      case Update(_, _, _) => UpdateCounts(u, e, limit);
      case Delete(id) => CountRemove(u.networks, IndexOfId(u.networks, id));
      case _ =>
        OtherEventsKeepTable(u, e, Some(limit));
        CountSame(u.networks, Step(u, e, Some(limit)).networks);
    }
  }

  /** Within the limit, no event that does not ignore it takes the number of enabled networks beyond it. */
  lemma {:induction false} LimitKept(u: User, e: Event, limit: nat)
    requires Valid(u) && Possible(u, e) && !IgnoresLimit(e) && CountEnabled(u.networks) <= limit
    ensures CountEnabled(Step(u, e, Some(limit)).networks) <= limit
  {
    LimitExact(u, e, limit);
  }

  lemma {:induction false} CreateCounts(u: User, e: Event, limit: nat)
    requires Sorted(u.networks) && e.Create? && Possible(u, e)
    ensures var added := Enables(u, e) && (e.ignoreLimit || CountEnabled(u.networks) < limit);
            CountEnabled(Step(u, e, Some(limit)).networks) == CountEnabled(u.networks) + if added then 1 else 0
  {
    if !Refused(u.networks, e.record, 0, !e.ignoreLimit, Some(limit)) {
      var n := NewNetwork(u.nextHandle, e.newId, e.record);
      AddSorted(u.networks, n);
      CountInsert(u.networks, n);
    }
  }

  lemma {:induction false} UpdateCounts(u: User, e: Event, limit: nat)
    requires Sorted(u.networks) && e.Update? && Possible(u, e)
    ensures var before, after := CountEnabled(u.networks), CountEnabled(Step(u, e, Some(limit)).networks);
            if Enables(u, e) && (e.ignoreLimit || before < limit) then after == before + 1 else after <= before
  {
    if Accepted(u, e, Some(limit)) {
      CountUpdate(u.networks, e.id, NewNetwork(u.nextHandle, e.id, e.record));
    }
  }

  lemma {:induction false} SameExceptOne(networks: seq<Network>, i: nat, n: Network)
    requires i < |networks| && n.(conn := None) == networks[i].(conn := None)
    ensures SameTable(networks, networks[i := n])
  {
  }

  lemma {:induction false} OtherEventsKeepTable(u: User, e: Event, limit: Option<nat>)
    requires Possible(u, e) && !e.Create? && !e.Update? && !e.Delete?
    ensures SameTable(u.networks, Step(u, e, limit).networks)
  {
    match e {
      case UpstreamConnected(h) => UpstreamKeepsTable(u, e, limit);
      case UpstreamDisconnected(h) => UpstreamKeepsTable(u, e, limit);
      case DownstreamConnected(id, network, away) =>
        UpdateAllSame(u.networks, u.conns + [Downstream(id, network, away, false)]);
      case DownstreamDisconnected(id) =>
        var i := IndexOfConn(u.conns, id);
        UpdateAllSame(u.networks, if i == |u.conns| then u.conns else RemoveAt(u.conns, i));
      case SetAway(id, away) => SetAwayKeepsTable(u, e, limit);
      case ConnClosed(id) =>
    }
  }

  lemma {:induction false} UpstreamKeepsTable(u: User, e: Event, limit: Option<nat>)
    requires e.UpstreamConnected? || e.UpstreamDisconnected?
    ensures SameTable(u.networks, Step(u, e, limit).networks)
  {
    var i := IndexOf(u.networks, e.handle);
    if i < |u.networks| {
      SameExceptOne(u.networks, i, Step(u, e, limit).networks[i]);
    }
  }

  lemma {:induction false} SetAwayKeepsTable(u: User, e: Event, limit: Option<nat>)
    requires e.SetAway?
    ensures SameTable(u.networks, Step(u, e, limit).networks)
  {
    var i := IndexOfConn(u.conns, e.id);
    if i < |u.conns| && !u.conns[i].closed && u.conns[i].network.Some? {
      var k := IndexOf(u.networks, u.conns[i].network.value);
      if k < |u.networks| {
        SameExceptOne(u.networks, k, UpdateAway(u.networks[k], u.conns[i := u.conns[i].(away := e.away)]));
      }
    }
  }

  lemma {:induction false} CountUpdate(networks: seq<Network>, id: nat, n: Network)
    requires Sorted(networks) && n.id == id && IndexOfId(networks, id) < |networks|
    ensures var i := IndexOfId(networks, id);
            CountEnabled(SortById(RemoveAt(networks, i) + [n])) + (if networks[i].enabled then 1 else 0)
            == CountEnabled(networks) + (if n.enabled then 1 else 0)
  {
    var i := IndexOfId(networks, id);
    RemoveSorted(networks, i);
    AddSorted(RemoveAt(networks, i), n);
    CountInsert(RemoveAt(networks, i), n);
    CountRemove(networks, i);
  }

  /** Once within the limit, every run in which no request ignores it stays within it. */
  lemma {:induction false} RunKeepsLimit(u: User, events: seq<Event>, limit: nat)
    requires Valid(u) && AllPossible(u, events, Some(limit))
    requires forall i :: 0 <= i < |events| ==> !IgnoresLimit(events[i])
    requires CountEnabled(u.networks) <= limit
    ensures CountEnabled(Run(u, events, Some(limit)).networks) <= limit
    decreases |events|
  {
    if events != [] {
      StepKeeps(u, events[0], Some(limit));
      LimitKept(u, events[0], limit);
      RunKeepsLimit(Step(u, events[0], Some(limit)), events[1..], limit);
    }
  }

  /** An update with an acceptable address and name is refused exactly when it would enable a disabled network with the
      limit reached and not ignored. So an enabled network can be changed or disabled at any time. */
  lemma {:induction false} UpdateRefused(u: User, id: nat, record: Record, ignoreLimit: bool, limit: Option<nat>)
    requires IndexOfId(u.networks, id) < |u.networks|
    ensures var wasEnabled := u.networks[IndexOfId(u.networks, id)].enabled;
            var full := limit.Some? && limit.value <= CountEnabled(u.networks);
            Step(u, Update(id, record, ignoreLimit), limit) == u
            <==> !NameOk(u.networks, record, id) || (record.enabled && !wasEnabled && !ignoreLimit && full)
  {
    var e := Update(id, record, ignoreLimit);
    assert Accepted(u, e, limit) ==> Step(u, e, limit).nextHandle == u.nextHandle + 1;
  }

  /** Some updates are requested without checking the limit. They leave the network enabled or disabled as it was, and
      then that makes no difference. */
  lemma {:induction false} UnenforcedSame(u: User, id: nat, record: Record, limit: Option<nat>)
    requires IndexOfId(u.networks, id) < |u.networks|
    requires record.enabled == u.networks[IndexOfId(u.networks, id)].enabled
    ensures Replace(u, id, record, false, limit) == Step(u, Update(id, record, false), limit)
  {
  }

  // ---- The event loop as the program runs it

  method AreAllAway(conns: seq<Downstream>, handle: nat) returns (away: bool)
    ensures away == AllAway(conns, handle)
  {
    away := true;
    for i := 0 to |conns|
      invariant away <==> forall k :: 0 <= k < i && conns[k].network == Some(handle) ==> conns[k].away
    {
      if conns[i].network == Some(handle) && !conns[i].away {
        away := false;
      }
    }
  }

  method SendAway(n: Network, conns: seq<Downstream>) returns (r: Network)
    ensures r == UpdateAway(n, conns)
  {
    if n.conn.None? || !n.autoAway {
      return n;
    }
    var away := AreAllAway(conns, n.handle);
    if away == n.conn.value.away {
      return n;
    }
    r := n.(conn := Some(Upstream(away, Some(away))));
  }

  method SortNetworks(networks: seq<Network>) returns (sorted: seq<Network>)
    ensures sorted == SortById(networks)
  {
    sorted := [];
    for i := 0 to |networks|
      invariant sorted == SortById(networks[..i])
    {
      assert networks[..i + 1][..i] == networks[..i];
      sorted := Insert(sorted, networks[i]);
    }
    assert networks[..|networks|] == networks;
  }

  method CanEnableNewNetwork(networks: seq<Network>, userMax: int, serverMax: int) returns (ok: bool)
    ensures ok == CanEnable(networks, Limit(userMax, serverMax))
  {
    var max := userMax;
    if max < 0 {
      max := serverMax;
    }
    if max < 0 {
      return true;
    }
    var n := 0;
    for i := 0 to |networks|
      invariant n == CountEnabled(networks[..i])
    {
      assert networks[..i + 1] == networks[..i] + [networks[i]];
      CountConcat(networks[..i], [networks[i]]);
      if networks[i].enabled {
        n := n + 1;
      }
    }
    assert networks[..|networks|] == networks;
    ok := n < max;
  }

  method CheckNetwork(networks: seq<Network>, record: Record, id: nat) returns (ok: bool)
    ensures ok == NameOk(networks, record, id)
  {
    if !record.urlOk || record.name == "" || record.name[0] == '-' {
      return false;
    }
    for i := 0 to |networks|
      invariant forall k :: 0 <= k < i ==> networks[k].name != record.name || networks[k].id == id
    {
      if networks[i].name == record.name && networks[i].id != id {
        return false;
      }
    }
    ok := true;
  }

  /** The checks before a network is stored. */
  method MayStore(networks: seq<Network>, record: Record, id: nat, enforce: bool, userMax: int, serverMax: int)
    returns (ok: bool)
    ensures ok == !Refused(networks, record, id, enforce, Limit(userMax, serverMax))
  {
    if enforce && record.enabled {
      ok := CanEnableNewNetwork(networks, userMax, serverMax);
      if !ok {
        return;
      }
    }
    ok := CheckNetwork(networks, record, id);
  }

  class UserState {
    var networks: seq<Network>
    var conns: seq<Downstream>
    var numConns: int
    var nextHandle: nat
    const maxNetworks: int
    const serverMaxNetworks: int

    /** The limit in force. */
    function LimitNow(): Option<nat> {
      Limit(maxNetworks, serverMaxNetworks)
    }

    function Now(): User
      reads this
    {
      User(networks, conns, numConns, nextHandle)
    }

    constructor (maxNetworks: int, serverMaxNetworks: int)
      ensures Valid(Now()) && Now() == User([], [], 0, 0)
      ensures this.maxNetworks == maxNetworks && this.serverMaxNetworks == serverMaxNetworks
    {
      networks, conns, numConns, nextHandle := [], [], 0, 0;
      this.maxNetworks, this.serverMaxNetworks := maxNetworks, serverMaxNetworks;
    }

    method ForEachUpstreamUpdateAway()
      modifies this`networks
      ensures networks == UpdateAllAway(old(networks), conns)
    {
      var i := 0;
      while i < |networks|
        invariant 0 <= i <= |networks| == |old(networks)|
        invariant forall k :: 0 <= k < |networks| ==>
            networks[k] == if k < i then UpdateAway(old(networks)[k], conns) else old(networks)[k]
      {
        var n := SendAway(networks[i], conns);
        networks := networks[i := n];
        i := i + 1;
      }
    }

    method HandleUpstreamConnected(handle: nat)
      modifies this`networks
      ensures Now() == Step(old(Now()), UpstreamConnected(handle), LimitNow())
    {
      var i := IndexOf(networks, handle);
      if i < |networks| {
        var n := SendAway(networks[i].(conn := Some(Upstream(false, None))), conns);
        networks := networks[i := n];
      }
    }

    method HandleUpstreamDisconnected(handle: nat)
      modifies this`networks
      ensures Now() == Step(old(Now()), UpstreamDisconnected(handle), LimitNow())
    {
      var i := IndexOf(networks, handle);
      if i < |networks| {
        networks := networks[i := networks[i].(conn := None)];
      }
    }

    method HandleDownstreamConnected(id: nat, network: Option<nat>, away: bool)
      requires Possible(Now(), DownstreamConnected(id, network, away))
      modifies this
      ensures Now() == Step(old(Now()), DownstreamConnected(id, network, away), LimitNow())
    {
      conns := conns + [Downstream(id, network, away, false)];
      numConns := numConns + 1;
      ForEachUpstreamUpdateAway();
    }

    method HandleDownstreamDisconnected(id: nat)
      modifies this
      ensures Now() == Step(old(Now()), DownstreamDisconnected(id), LimitNow())
    {
      var i := IndexOfConn(conns, id);
      if i < |conns| {
        conns := conns[..i] + conns[i + 1..];
        numConns := numConns - 1;
      }
      ForEachUpstreamUpdateAway();
    }

    method HandleAway(id: nat, away: bool)
      modifies this`conns, this`networks
      ensures Now() == Step(old(Now()), SetAway(id, away), LimitNow())
    {
      var i := IndexOfConn(conns, id);
      if i == |conns| || conns[i].closed {
        return;
      }
      conns := conns[i := conns[i].(away := away)];
      if conns[i].network.Some? {
        var k := IndexOf(networks, conns[i].network.value);
        if k < |networks| {
          var n := SendAway(networks[k], conns);
          networks := networks[k := n];
        }
      }
    }

    method AddNetwork(n: Network)
      modifies this`networks
      ensures networks == SortById(old(networks) + [n])
    {
      networks := SortNetworks(networks + [n]);
    }

    /** Closes the connections bound to the network at position `i` and takes it out of the table. */
    method RemoveNetwork(i: nat)
      requires i < |networks|
      modifies this`networks, this`conns
      ensures networks == RemoveAt(old(networks), i)
      ensures conns == CloseBound(old(conns), old(networks)[i].handle)
    {
      var handle := networks[i].handle;
      var k := 0;
      while k < |conns|
        invariant 0 <= k <= |conns| == |old(conns)|
        invariant networks == old(networks)
        invariant forall j :: 0 <= j < |conns| ==>
            conns[j] == if j < k then CloseBound(old(conns), handle)[j] else old(conns)[j]
      {
        if conns[k].network == Some(handle) {
          conns := conns[k := conns[k].(closed := true)];
        }
        k := k + 1;
      }
      networks := networks[..i] + networks[i + 1..];
    }

    method CreateNetwork(record: Record, newId: nat, enforce: bool) returns (ok: bool)
      requires Possible(Now(), Create(record, newId, !enforce))
      modifies this
      ensures ok == !Refused(old(networks), record, 0, enforce, LimitNow())
      ensures Now() == Step(old(Now()), Create(record, newId, !enforce), LimitNow())
    {
      ok := MayStore(networks, record, 0, enforce, maxNetworks, serverMaxNetworks);
      if !ok {
        return;
      }
      AddNetwork(NewNetwork(nextHandle, newId, record));
      nextHandle := nextHandle + 1;
    }

    /** A client or the service changes the settings of a network, perhaps enabling or disabling it. */
    method ChangeNetwork(id: nat, record: Record, ignoreLimit: bool) returns (ok: bool)
      requires Possible(Now(), Update(id, record, ignoreLimit))
      modifies this
      ensures ok == Accepted(old(Now()), Update(id, record, ignoreLimit), LimitNow())
      ensures Now() == Step(old(Now()), Update(id, record, ignoreLimit), LimitNow())
    {
      var wasEnabled := networks[IndexOfId(networks, id)].enabled;
      ok := UpdateNetwork(id, record, !ignoreLimit && !wasEnabled);
    }

    /** SETNAME, forgetting credentials and a change of the user's own settings leave a network enabled or disabled. */
    method RefreshNetwork(id: nat, record: Record) returns (ok: bool)
      requires Possible(Now(), Update(id, record, false))
      requires record.enabled == networks[IndexOfId(networks, id)].enabled
      modifies this
      ensures ok == Accepted(old(Now()), Update(id, record, false), LimitNow())
      ensures Now() == Step(old(Now()), Update(id, record, false), LimitNow())
    {
      UnenforcedSame(Now(), id, record, LimitNow());
      ok := UpdateNetwork(id, record, false);
    }

    method UpdateNetwork(id: nat, record: Record, enforce: bool) returns (ok: bool)
      requires IndexOfId(networks, id) < |networks|
      modifies this
      ensures ok == !Refused(old(networks), record, id, enforce, LimitNow())
      ensures Now() == Replace(old(Now()), id, record, enforce, LimitNow())
    {
      ok := MayStore(networks, record, id, enforce, maxNetworks, serverMaxNetworks);
      if !ok {
        return;
      }
      var i := IndexOfId(networks, id);
      var handle := networks[i].handle;
      PatchConns(handle, nextHandle);
      RemoveNetwork(i);
      AddNetwork(NewNetwork(nextHandle, id, record));
      nextHandle := nextHandle + 1;
    }

    /** Points the connections of one network object at another. */
    method PatchConns(from: nat, to: nat)
      modifies this`conns
      ensures conns == Rebind(old(conns), from, to)
    {
      var k := 0;
      while k < |conns|
        invariant 0 <= k <= |conns| == |old(conns)|
        invariant forall j :: 0 <= j < |conns| ==>
            conns[j] == if j < k then Rebind(old(conns), from, to)[j] else old(conns)[j]
      {
        if conns[k].network == Some(from) {
          conns := conns[k := conns[k].(network := Some(to))];
        }
        k := k + 1;
      }
    }

    method DeleteNetwork(id: nat)
      requires Possible(Now(), Delete(id))
      modifies this
      ensures Now() == Step(old(Now()), Delete(id), LimitNow())
    {
      RemoveNetwork(IndexOfId(networks, id));
    }
  }
}
