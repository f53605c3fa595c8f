/** One process's connection manager: the two socket indexes and the dispatch of one message. */
module FanoutIndex {
  import opened Common
  import opened Fanout

  type Socket = Id

  datatype Index = Index(users: map<Address, set<Socket>>, tenants: map<string, set<Socket>>)

  function At<K>(m: map<K, set<Socket>>, k: K): set<Socket> {
    if k in m then m[k] else {}
  }

  function Added<K>(m: map<K, set<Socket>>, k: K, ws: Socket): map<K, set<Socket>> {
    m[k := At(m, k) + {ws}]
  }

  /** `discard`, and the entry goes with its last socket. */
  function Discarded<K>(m: map<K, set<Socket>>, k: K, ws: Socket): map<K, set<Socket>> {
    if k !in m then m
    else if m[k] - {ws} == {} then m - {k}
    else m[k := m[k] - {ws}]
  }

  function Connected(ix: Index, a: Address, ws: Socket): Index {
    Index(Added(ix.users, a, ws), Added(ix.tenants, a.tenant, ws))
  }

  function Disconnected(ix: Index, a: Address, ws: Socket): Index {
    Index(Discarded(ix.users, a, ws), Discarded(ix.tenants, a.tenant, ws))
  }

  /** Every tenant's set is the union of its users' sets, and no entry is empty. */
  ghost predicate Consistent(ix: Index) {
    && (forall t, ws :: ws in At(ix.tenants, t) <==> InTenant(ix, t, ws))
    && (forall a :: a in ix.users ==> ix.users[a] != {})
    && (forall t :: t in ix.tenants ==> ix.tenants[t] != {})
  }

  ghost predicate InTenant(ix: Index, tenant: string, ws: Socket) {
    exists user :: ws in At(ix.users, Address(tenant, user))
  }

  lemma AddedAt<K>(m: map<K, set<Socket>>, k: K, ws: Socket, j: K, x: Socket)
    ensures x in At(Added(m, k, ws), j) <==> x in At(m, j) || (j == k && x == ws)
  {
  }

  lemma DiscardedAt<K>(m: map<K, set<Socket>>, k: K, ws: Socket, j: K, x: Socket)
    ensures x in At(Discarded(m, k, ws), j) <==> x in At(m, j) && !(j == k && x == ws)
  {
  }

  lemma ConnectKeepsConsistent(ix: Index, a: Address, ws: Socket)
    requires Consistent(ix)
    ensures Consistent(Connected(ix, a, ws))
  {
    var after := Connected(ix, a, ws);
    forall t, x ensures x in At(after.tenants, t) <==> InTenant(after, t, x) {
      AddedAt(ix.tenants, a.tenant, ws, t, x);
      hide Added;
      forall user ensures x in At(after.users, Address(t, user)) <==>
                          x in At(ix.users, Address(t, user)) || (Address(t, user) == a && x == ws) {
        AddedAt(ix.users, a, ws, Address(t, user), x);
      }
      if x == ws && t == a.tenant {
        assert x in At(after.users, Address(t, a.user));
      }
      if InTenant(ix, t, x) {
        var user :| x in At(ix.users, Address(t, user));
        assert x in At(after.users, Address(t, user));
      }
    }
  }

  /** The socket is registered for no other user of the tenant. */
  ghost predicate OnlyUser(ix: Index, a: Address, ws: Socket) {
    forall user :: ws in At(ix.users, Address(a.tenant, user)) ==> user == a.user
  }

  lemma DisconnectedUsers(ix: Index, a: Address, ws: Socket, t: string, x: Socket)
    ensures InTenant(Disconnected(ix, a, ws), t, x) <==>
            exists user :: x in At(ix.users, Address(t, user)) && !(Address(t, user) == a && x == ws)
  {
    var after := Disconnected(ix, a, ws);
    forall user ensures x in At(after.users, Address(t, user)) <==>
                        x in At(ix.users, Address(t, user)) && !(Address(t, user) == a && x == ws) {
      DiscardedAt(ix.users, a, ws, Address(t, user), x);
    }
  }

  /**
   Disconnecting keeps the indexes in step exactly when the socket is not also registered for
   another user of the same tenant.
   */
  lemma DisconnectKeepsConsistent(ix: Index, a: Address, ws: Socket)
    requires Consistent(ix)
    ensures Consistent(Disconnected(ix, a, ws)) <==> OnlyUser(ix, a, ws)
  {
    var after := Disconnected(ix, a, ws);
    forall t, x ensures x in At(after.tenants, t) <==> x in At(ix.tenants, t) && !(t == a.tenant && x == ws) {
      DiscardedAt(ix.tenants, a.tenant, ws, t, x);
    }
    forall t, x ensures InTenant(after, t, x) <==>
                        exists user :: x in At(ix.users, Address(t, user)) && !(Address(t, user) == a && x == ws) {
      DisconnectedUsers(ix, a, ws, t, x);
    }
    assert forall b :: b in after.users ==> after.users[b] != {};
    assert forall t :: t in after.tenants ==> after.tenants[t] != {};
    hide Disconnected;
    if !OnlyUser(ix, a, ws) {
      var user :| ws in At(ix.users, Address(a.tenant, user)) && user != a.user;
      assert InTenant(after, a.tenant, ws);
    } else {
      forall t, x ensures x in At(after.tenants, t) <==> InTenant(after, t, x) {
        if InTenant(ix, t, x) && !(t == a.tenant && x == ws) {
          var user :| x in At(ix.users, Address(t, user));
          assert !(Address(t, user) == a && x == ws);
        }
      }
    }
  }

  // ----- Who gets a message

  function Targets(ix: Index, destination: Destination): set<Socket> {
    match destination
    case ToUser(tenant, user) => At(ix.users, Address(tenant, user))
    case ToTenant(tenant) => At(ix.tenants, tenant)
    case ToNobody => {}
  }

  predicate Addressed(destination: Destination, a: Address) {
    destination == ToUser(a.tenant, a.user) || destination == ToTenant(a.tenant)
  }

  /** A message reaches exactly the sockets registered for an address it is meant for. */
  lemma TargetsAreAddressed(ix: Index, destination: Destination, ws: Socket)
    requires Consistent(ix)
    ensures ws in Targets(ix, destination) <==> exists a :: ws in At(ix.users, a) && Addressed(destination, a)
  {
    match destination
    case ToUser(tenant, user) =>
      assert Addressed(destination, Address(tenant, user));
    case ToTenant(tenant) =>
      if InTenant(ix, tenant, ws) {
        var user :| ws in At(ix.users, Address(tenant, user));
        assert Addressed(destination, Address(tenant, user));
      }
      forall a | ws in At(ix.users, a) && Addressed(destination, a) ensures InTenant(ix, tenant, ws) {
        assert a == Address(tenant, a.user);
      }
    case ToNobody =>
  }

  class ConnectionManager {
    var userSockets: map<Address, set<Socket>>
    var tenantSockets: map<string, set<Socket>>

    function Sockets(): Index
      reads this
    {
      Index(userSockets, tenantSockets)
    }

    constructor ()
      ensures Sockets() == Index(map[], map[]) && Consistent(Sockets())
    {
      userSockets, tenantSockets := map[], map[];
    }

    method Connect(a: Address, ws: Socket)
      modifies this
      ensures Sockets() == Connected(old(Sockets()), a, ws)
      ensures old(Consistent(Sockets())) ==> Consistent(Sockets())
    {
      ghost var before := Sockets();
      userSockets := userSockets[a := At(userSockets, a) + {ws}];
      tenantSockets := tenantSockets[a.tenant := At(tenantSockets, a.tenant) + {ws}];
      if Consistent(before) {
        ConnectKeepsConsistent(before, a, ws);
      }
    }

    method Disconnect(a: Address, ws: Socket)
      modifies this
      ensures Sockets() == Disconnected(old(Sockets()), a, ws)
      ensures old(Consistent(Sockets()) && OnlyUser(Sockets(), a, ws)) ==> Consistent(Sockets())
    {
      ghost var before := Sockets();
      if a in userSockets {
        userSockets := userSockets[a := userSockets[a] - {ws}];
        if userSockets[a] == {} {
          userSockets := userSockets - {a};
        }
      }
      if a.tenant in tenantSockets {
        tenantSockets := tenantSockets[a.tenant := tenantSockets[a.tenant] - {ws}];
        if tenantSockets[a.tenant] == {} {
          tenantSockets := tenantSockets - {a.tenant};
        }
      }
      assert userSockets == Discarded(before.users, a, ws);
      assert tenantSockets == Discarded(before.tenants, a.tenant, ws);
      if Consistent(before) {
        DisconnectKeepsConsistent(before, a, ws);
      }
    }

    /** `broken` sockets raise on send, which is logged; the loop goes on to the next one. */
    method SendLocal(sockets: set<Socket>, broken: set<Socket>) returns (sent: seq<Socket>)
      ensures forall ws :: ws in sent <==> ws in sockets && ws !in broken
      ensures forall i, j :: 0 <= i < j < |sent| ==> sent[i] != sent[j]
    {
      sent := [];
      var left := sockets;
      while left != {}
        invariant left <= sockets
        invariant forall ws :: ws in sent <==> ws in sockets - left && ws !in broken
        invariant forall i, j :: 0 <= i < j < |sent| ==> sent[i] != sent[j]
      {
        var ws := Next(left);
        left := left - {ws};
        if ws !in broken {
          sent := sent + [ws];
        }
      }
    }

    /** Each working socket the channel is meant for gets the message once; nobody else does. */
    method Dispatch(channel: string, broken: set<Socket>) returns (sent: seq<Socket>)
      ensures forall ws :: ws in sent <==> ws in Targets(Sockets(), Parse(channel)) && ws !in broken
      ensures forall i, j :: 0 <= i < j < |sent| ==> sent[i] != sent[j]
    {
      match Parse(channel)
      case ToUser(tenant, user) =>
        sent := SendLocal(At(userSockets, Address(tenant, user)), broken);
      case ToTenant(tenant) =>
        sent := SendLocal(At(tenantSockets, tenant), broken);
      case ToNobody =>
        sent := [];
    }
  }
}
