/**
 All processes together: sockets come and go, anyone publishes, each listening process takes its
 copies in order and sends them one socket at a time, with everything else going on in between.
 */
module FanoutSystem {
  import opened Common
  import opened Fanout
  import opened FanoutIndex

  /** The message being sent: its place in the publish order, and the sockets still to be served. */
  datatype Sending = Idle | Busy(pos: nat, left: set<Socket>)
  datatype Replica = Replica(index: Index, listening: bool, inbox: seq<nat>, sending: Sending)
  datatype Post = Post(destination: Destination, body: string)

  /** `log` is every publish so far; `received` is what each socket was sent, as places in the log. */
  datatype System = System(replicas: seq<Replica>, log: seq<Post>, received: map<Socket, seq<nat>>)

  /** The one process a socket is connected to and the one user it is registered for. */
  datatype Home = Home(replica: nat, address: Address)

  datatype Step = Connect(ws: Socket) | Disconnect(ws: Socket)
                | Publish(destination: Destination, body: string) | PublishFails
                | Listen(r: nat) | StopListening(r: nat)
                | Begin(r: nat) | Send(r: nat, ws: Socket, works: bool) | Finish(r: nat)

  predicate Plain(d: Destination) {
    match d
    case ToUser(tenant, user) => PlainId(tenant) && PlainId(user)
    case ToTenant(tenant) => PlainId(tenant)
    case ToNobody => false
  }

  function ChannelOf(d: Destination): string
    requires Plain(d)
  {
    match d
    case ToUser(tenant, user) => UserChannel(tenant, user)
    case ToTenant(tenant) => TenantChannel(tenant)
  }

  lemma ChannelIsReadBack(d: Destination)
    requires Plain(d)
    ensures Parse(ChannelOf(d)) == d
  {
    match d
    case ToUser(tenant, user) => UserChannelRoundTrip(tenant, user);
    case ToTenant(tenant) => TenantChannelRoundTrip(tenant);
  }

  function Start(n: nat): System {
    System(seq(n, _ => Replica(Index(map[], map[]), false, [], Idle)), [], map[])
  }

  predicate Enabled(home: Socket -> Home, s: System, step: Step) {
    match step
    case Connect(ws) => home(ws).replica < |s.replicas|
    case Disconnect(ws) => home(ws).replica < |s.replicas|
    case Publish(destination, _) => Plain(destination)
    case PublishFails => true
    case Listen(r) => r < |s.replicas|
    case StopListening(r) => r < |s.replicas|
    case Begin(r) => r < |s.replicas| && s.replicas[r].sending.Idle? && s.replicas[r].inbox != []
                     && s.replicas[r].inbox[0] < |s.log| && Plain(s.log[s.replicas[r].inbox[0]].destination)
    case Send(r, ws, _) => r < |s.replicas| && s.replicas[r].sending.Busy? && ws in s.replicas[r].sending.left
    case Finish(r) => r < |s.replicas| && s.replicas[r].sending.Busy? && s.replicas[r].sending.left == {}
  }

  function Received(s: System, ws: Socket): seq<nat> {
    if ws in s.received then s.received[ws] else []
  }

  function Repeat(pos: nat, n: nat): seq<nat> {
    seq(n, _ => pos)
  }

  ghost function Next(home: Socket -> Home, s: System, step: Step): System
    requires Enabled(home, s, step)
  {
    match step
    case Connect(ws) =>
      SetIndex(s, home(ws).replica, Connected(s.replicas[home(ws).replica].index, home(ws).address, ws))
    case Disconnect(ws) =>
      SetIndex(s, home(ws).replica, Disconnected(s.replicas[home(ws).replica].index, home(ws).address, ws))
    case Publish(destination, body) =>
      s.(log := s.log + [Post(destination, body)],
         replicas := seq(|s.replicas|, r requires 0 <= r < |s.replicas| =>
           Delivered(s.replicas[r], |s.log|, Copies(ChannelOf(destination)))))
    case PublishFails => s
    case Listen(r) => s.(replicas := s.replicas[r := s.replicas[r].(listening := true)])
    case StopListening(r) =>
      s.(replicas := s.replicas[r := s.replicas[r].(listening := false, inbox := [], sending := Idle)])
    case Begin(r) =>
      var rep := s.replicas[r];
      var pos := rep.inbox[0];
      var targets := Targets(rep.index, Parse(ChannelOf(s.log[pos].destination)));
      s.(replicas := s.replicas[r := rep.(inbox := rep.inbox[1..], sending := Busy(pos, targets))])
    case Send(r, ws, works) =>
      var rep := s.replicas[r];
      var after := s.(replicas := s.replicas[r := rep.(sending := Busy(rep.sending.pos, rep.sending.left - {ws}))]);
      if works then after.(received := s.received[ws := Received(s, ws) + [rep.sending.pos]]) else after
    case Finish(r) => s.(replicas := s.replicas[r := s.replicas[r].(sending := Idle)])
  }

  function SetIndex(s: System, r: nat, index: Index): System
    requires r < |s.replicas|
  {
    s.(replicas := s.replicas[r := s.replicas[r].(index := index)])
  }

  function Delivered(rep: Replica, pos: nat, copies: nat): Replica {
    if rep.listening then rep.(inbox := rep.inbox + Repeat(pos, copies)) else rep
  }

  /** The state after any sequence of attempted steps; a step that is not enabled does nothing. */
  ghost function After(home: Socket -> Home, n: nat, steps: seq<Step>): System {
    if steps == [] then Start(n)
    else
      var s := After(home, n, steps[..|steps| - 1]);
      var step := steps[|steps| - 1];
      if Enabled(home, s, step) then Next(home, s, step) else s
  }

  // ----- What every step keeps

  /** Publish order; with `once`, without repeats. */
  ghost predicate Ordered(once: bool, xs: seq<nat>) {
    forall i, j :: 0 <= i < j < |xs| ==> if once then xs[i] < xs[j] else xs[i] <= xs[j]
  }

  /** What a process still has in hand for a socket. */
  function Upcoming(rep: Replica, ws: Socket): seq<nat> {
    (if rep.sending.Busy? && ws in rep.sending.left then [rep.sending.pos] else []) + rep.inbox
  }

  ghost predicate StreamOk(once: bool, log: seq<Post>, xs: seq<nat>) {
    Ordered(once, xs) && forall x :: x in xs ==> x < |log|
  }

  ghost predicate IndexOk(home: Socket -> Home, s: System, r: nat)
    requires r < |s.replicas|
  {
    Consistent(s.replicas[r].index) && forall a, ws :: ws in At(s.replicas[r].index.users, a) ==> home(ws) == Home(r, a)
  }

  ghost predicate SendingOk(home: Socket -> Home, s: System, r: nat)
    requires r < |s.replicas|
  {
    var sending := s.replicas[r].sending;
    sending.Busy? ==>
      sending.pos < |s.log| &&
      forall ws :: ws in sending.left ==>
        home(ws).replica == r && Addressed(s.log[sending.pos].destination, home(ws).address)
  }

  /** Sent and upcoming messages of a socket form one stream in publish order, and those sent were meant for it. */
  ghost predicate SocketOk(home: Socket -> Home, once: bool, s: System, ws: Socket) {
    && (home(ws).replica < |s.replicas| ==>
          StreamOk(once, s.log, Received(s, ws) + Upcoming(s.replicas[home(ws).replica], ws)))
    && StreamOk(once, s.log, Received(s, ws))
    && forall p :: p in Received(s, ws) ==> p < |s.log| && Addressed(s.log[p].destination, home(ws).address)
  }

  ghost predicate Invariant(home: Socket -> Home, once: bool, s: System) {
    && (forall p :: 0 <= p < |s.log| ==> Plain(s.log[p].destination))
    && (forall r :: 0 <= r < |s.replicas| ==> IndexOk(home, s, r) && SendingOk(home, s, r))
    && (forall ws :: SocketOk(home, once, s, ws))
  }

  lemma StartInvariant(home: Socket -> Home, once: bool, n: nat)
    ensures Invariant(home, once, Start(n))
  {
  }

  lemma DropFirst(once: bool, log: seq<Post>, xs: seq<nat>, p: nat, ys: seq<nat>)
    requires StreamOk(once, log, xs + ([p] + ys))
    ensures StreamOk(once, log, xs + ys)
  {
    var all := xs + ([p] + ys);
    assert forall i :: 0 <= i < |xs + ys| ==> (xs + ys)[i] == all[if i < |xs| then i else i + 1];
    forall x | x in xs + ys ensures x < |log| {
      assert x in all;
    }
  }

  lemma Prefix(once: bool, log: seq<Post>, xs: seq<nat>, ys: seq<nat>)
    requires StreamOk(once, log, xs + ys)
    ensures StreamOk(once, log, xs)
  {
    assert forall i :: 0 <= i < |xs| ==> xs[i] == (xs + ys)[i];
    forall x | x in xs ensures x < |log| {
      assert x in xs + ys;
    }
  }

  lemma Longer(once: bool, log: seq<Post>, post: Post, xs: seq<nat>, n: nat)
    requires StreamOk(once, log, xs) && (once ==> n <= 1)
    ensures StreamOk(once, log + [post], xs + Repeat(|log|, n))
  {
    var all := xs + Repeat(|log|, n);
    assert forall i :: 0 <= i < |all| ==> all[i] == if i < |xs| then xs[i] else |log|;
    assert forall i :: 0 <= i < |xs| ==> xs[i] in xs;
    forall x | x in all ensures x < |log + [post]| {
      var i :| 0 <= i < |all| && all[i] == x;
    }
  }

  lemma ConnectKeeps(home: Socket -> Home, once: bool, s: System, ws: Socket)
    requires Invariant(home, once, s) && home(ws).replica < |s.replicas|
    ensures Invariant(home, once, Next(home, s, Connect(ws)))
    ensures Invariant(home, once, Next(home, s, Disconnect(ws)))
  {
    var h := home(ws);
    var ix := s.replicas[h.replica].index;
    assert IndexOk(home, s, h.replica);
    ConnectKeepsConsistent(ix, h.address, ws);
    assert OnlyUser(ix, h.address, ws);
    DisconnectKeepsConsistent(ix, h.address, ws);
    forall a, x ensures x in At(Connected(ix, h.address, ws).users, a) ==> home(x) == Home(h.replica, a) {
      AddedAt(ix.users, h.address, ws, a, x);
    }
    forall a, x ensures x in At(Disconnected(ix, h.address, ws).users, a) ==> home(x) == Home(h.replica, a) {
      DiscardedAt(ix.users, h.address, ws, a, x);
    }
    hide Consistent, Connected, Disconnected, At, Plain, StreamOk, Addressed;
    IndexChanged(home, once, s, h.replica, Connected(ix, h.address, ws));
    IndexChanged(home, once, s, h.replica, Disconnected(ix, h.address, ws));
  }

  lemma IndexChanged(home: Socket -> Home, once: bool, s: System, r: nat, index: Index)
    requires Invariant(home, once, s) && r < |s.replicas|
    requires Consistent(index) && forall a, x :: x in At(index.users, a) ==> home(x) == Home(r, a)
    ensures Invariant(home, once, SetIndex(s, r, index))
  {
    hide Consistent, At, Plain, StreamOk, Addressed;
    var after := SetIndex(s, r, index);
    forall q | 0 <= q < |after.replicas| ensures IndexOk(home, after, q) && SendingOk(home, after, q) {
      assert IndexOk(home, s, q) && SendingOk(home, s, q);
    }
    forall x ensures SocketOk(home, once, after, x) {
      assert SocketOk(home, once, s, x);
      assert home(x).replica < |s.replicas| ==>
        Upcoming(after.replicas[home(x).replica], x) == Upcoming(s.replicas[home(x).replica], x);
    }
  }

  /** A step inside one process: its index, the log and all other sockets stay as they are. */
  lemma ReplicaChanged(home: Socket -> Home, once: bool, s: System, after: System, r: nat)
    requires Invariant(home, once, s) && r < |s.replicas|
    requires after.log == s.log && |after.replicas| == |s.replicas|
    requires after.replicas[r].index == s.replicas[r].index
    requires forall q :: 0 <= q < |s.replicas| && q != r ==> after.replicas[q] == s.replicas[q]
    requires SendingOk(home, after, r)
    requires forall ws :: home(ws).replica == r ==> SocketOk(home, once, after, ws)
    requires forall ws :: home(ws).replica != r ==> Received(after, ws) == Received(s, ws)
    ensures Invariant(home, once, after)
  {
    hide Consistent, At, Plain, StreamOk, Addressed, Received;
    forall q | 0 <= q < |after.replicas| ensures IndexOk(home, after, q) && SendingOk(home, after, q) {
      assert IndexOk(home, s, q) && SendingOk(home, s, q);
    }
    forall ws ensures SocketOk(home, once, after, ws) {
      assert SocketOk(home, once, s, ws);
    }
  }

  lemma ListenKeeps(home: Socket -> Home, once: bool, s: System, r: nat)
    requires Invariant(home, once, s) && r < |s.replicas|
    ensures Invariant(home, once, Next(home, s, Listen(r)))
    ensures Invariant(home, once, Next(home, s, StopListening(r)))
  {
    hide Consistent, IndexOk, Plain, StreamOk, Addressed, Received;
    var on, off := Next(home, s, Listen(r)), Next(home, s, StopListening(r));
    assert SendingOk(home, s, r);
    forall ws ensures Received(on, ws) == Received(s, ws) == Received(off, ws) {
      SameReceived(s, on, ws);
      SameReceived(s, off, ws);
    }
    forall ws | home(ws).replica == r ensures SocketOk(home, once, on, ws) && SocketOk(home, once, off, ws) {
      assert SocketOk(home, once, s, ws);
      assert Upcoming(on.replicas[r], ws) == Upcoming(s.replicas[r], ws);
      assert Received(s, ws) + Upcoming(off.replicas[r], ws) == Received(s, ws);
    }
    ReplicaChanged(home, once, s, on, r);
    ReplicaChanged(home, once, s, off, r);
  }

  lemma SameReceived(s: System, after: System, ws: Socket)
    requires after.received == s.received
    ensures Received(after, ws) == Received(s, ws)
  {
  }

  /** Beginning takes the first message in hand and aims it at the sockets its channel is meant for. */
  lemma BeginEffect(home: Socket -> Home, s: System, r: nat)
    requires Enabled(home, s, Begin(r))
    ensures var rep, after := s.replicas[r], Next(home, s, Begin(r));
            && after.log == s.log && after.received == s.received
            && after.replicas == s.replicas[r := after.replicas[r]]
            && after.replicas[r] == rep.(inbox := rep.inbox[1..], sending := after.replicas[r].sending)
            && after.replicas[r].sending ==
               Busy(rep.inbox[0], Targets(rep.index, Parse(ChannelOf(s.log[rep.inbox[0]].destination))))
  {
    hide Targets, Parse, ChannelOf, Plain;
  }

  lemma BeginUpcoming(rep: Replica, next: Replica, ws: Socket)
    requires rep.inbox != [] && rep.sending.Idle?
    requires next.inbox == rep.inbox[1..] && next.sending.Busy? && next.sending.pos == rep.inbox[0]
    ensures Upcoming(rep, ws) == [rep.inbox[0]] + rep.inbox[1..]
    ensures Upcoming(next, ws) == if ws in next.sending.left then Upcoming(rep, ws) else rep.inbox[1..]
  {
  }

  lemma BeginKeeps(home: Socket -> Home, once: bool, s: System, r: nat)
    requires Invariant(home, once, s) && Enabled(home, s, Begin(r))
    ensures Invariant(home, once, Next(home, s, Begin(r)))
  {
    var after := Next(home, s, Begin(r));
    var rep := s.replicas[r];
    var pos := rep.inbox[0];
    var destination := s.log[pos].destination;
    BeginEffect(home, s, r);
    ChannelIsReadBack(destination);
    hide Next, StreamOk, Received, ChannelOf, Parse, Upcoming;
    assert IndexOk(home, s, r);
    forall ws | ws in after.replicas[r].sending.left
      ensures home(ws).replica == r && Addressed(destination, home(ws).address)
    {
      TargetsAreAddressed(rep.index, destination, ws);
    }
    assert SendingOk(home, after, r);
    hide Consistent, IndexOk, Plain, Addressed, Targets, SendingOk;
    forall ws ensures Received(after, ws) == Received(s, ws) {
      SameReceived(s, after, ws);
    }
    forall ws | home(ws).replica == r ensures SocketOk(home, once, after, ws) {
      assert SocketOk(home, once, s, ws);
      BeginUpcoming(rep, after.replicas[r], ws);
      DropFirst(once, s.log, Received(s, ws), pos, rep.inbox[1..]);
    }
    ReplicaChanged(home, once, s, after, r);
  }

  lemma SendKeeps(home: Socket -> Home, once: bool, s: System, r: nat, ws: Socket, works: bool)
    requires Invariant(home, once, s) && Enabled(home, s, Send(r, ws, works))
    ensures Invariant(home, once, Next(home, s, Send(r, ws, works)))
  {
    var after := Next(home, s, Send(r, ws, works));
    var rep := s.replicas[r];
    var pos := rep.sending.pos;
    assert SendingOk(home, s, r);
    assert forall x :: Received(after, x) == if x == ws && works then Received(s, x) + [pos] else Received(s, x);
    hide Consistent, IndexOk, Plain, StreamOk, Addressed, Received;
    forall x | home(x).replica == r ensures SocketOk(home, once, after, x) {
      assert SocketOk(home, once, s, x);
      if x != ws {
        assert Upcoming(after.replicas[r], x) == Upcoming(rep, x);
      } else {
        SentOne(home, once, s, after, r, ws, works);
      }
    }
    ReplicaChanged(home, once, s, after, r);
  }

  lemma SentOne(home: Socket -> Home, once: bool, s: System, after: System, r: nat, ws: Socket, works: bool)
    requires r < |s.replicas| && s.replicas[r].sending.Busy? && ws in s.replicas[r].sending.left
             && home(ws).replica == r
    requires SocketOk(home, once, s, ws) && SendingOk(home, s, r)
    requires after.log == s.log && r < |after.replicas| && after.replicas[r].inbox == s.replicas[r].inbox
    requires after.replicas[r].sending == Busy(s.replicas[r].sending.pos, s.replicas[r].sending.left - {ws})
    requires Received(after, ws) == if works then Received(s, ws) + [s.replicas[r].sending.pos] else Received(s, ws)
    ensures SocketOk(home, once, after, ws)
  {
    hide StreamOk, Addressed, Received;
    var pos, inbox := s.replicas[r].sending.pos, s.replicas[r].inbox;
    assert Upcoming(s.replicas[r], ws) == [pos] + inbox && Upcoming(after.replicas[r], ws) == inbox;
    assert Received(s, ws) + ([pos] + inbox) == (Received(s, ws) + [pos]) + inbox;
    if works {
      Prefix(once, s.log, Received(s, ws) + [pos], inbox);
    } else {
      DropFirst(once, s.log, Received(s, ws), pos, inbox);
    }
  }

  lemma FinishKeeps(home: Socket -> Home, once: bool, s: System, r: nat)
    requires Invariant(home, once, s) && Enabled(home, s, Finish(r))
    ensures Invariant(home, once, Next(home, s, Finish(r)))
  {
    hide Consistent, IndexOk, Plain, StreamOk, Addressed, Received;
    var after := Next(home, s, Finish(r));
    forall ws ensures Received(after, ws) == Received(s, ws) {
      SameReceived(s, after, ws);
    }
    forall ws | home(ws).replica == r ensures SocketOk(home, once, after, ws) {
      assert SocketOk(home, once, s, ws);
      assert Upcoming(after.replicas[r], ws) == Upcoming(s.replicas[r], ws);
    }
    ReplicaChanged(home, once, s, after, r);
  }

  lemma PublishKeeps(home: Socket -> Home, once: bool, s: System, destination: Destination, body: string)
    requires Invariant(home, once, s) && Plain(destination)
    requires once ==> Copies(ChannelOf(destination)) <= 1
    ensures Invariant(home, once, Next(home, s, Publish(destination, body)))
  {
    var after := Next(home, s, Publish(destination, body));
    var post, n, copies := Post(destination, body), |s.log|, Copies(ChannelOf(destination));
    hide Consistent, Copies, ChannelOf;
    assert after.log == s.log + [post];
    forall r | 0 <= r < |after.replicas| ensures IndexOk(home, after, r) && SendingOk(home, after, r) {
      assert IndexOk(home, s, r) && SendingOk(home, s, r);
      assert after.replicas[r].index == s.replicas[r].index && after.replicas[r].sending == s.replicas[r].sending;
    }
    hide StreamOk, IndexOk, SendingOk, Addressed, Received;
    forall ws ensures SocketOk(home, once, after, ws) {
      assert SocketOk(home, once, s, ws);
      SameReceived(s, after, ws);
      LongerSocket(home, once, s, after, post, copies, ws);
    }
  }

  lemma LongerSocket(home: Socket -> Home, once: bool, s: System, after: System, post: Post, copies: nat, ws: Socket)
    requires SocketOk(home, once, s, ws) && (once ==> copies <= 1)
    requires after.log == s.log + [post] && Received(after, ws) == Received(s, ws)
    requires |after.replicas| == |s.replicas|
    requires home(ws).replica < |s.replicas| ==>
               after.replicas[home(ws).replica] == Delivered(s.replicas[home(ws).replica], |s.log|, copies)
    ensures SocketOk(home, once, after, ws)
  {
    hide StreamOk, Addressed, Received;
    Longer(once, s.log, post, Received(s, ws), 0);
    assert Received(s, ws) + Repeat(|s.log|, 0) == Received(s, ws);
    if home(ws).replica < |s.replicas| {
      var rep := s.replicas[home(ws).replica];
      var stream := Received(s, ws) + Upcoming(rep, ws);
      var n := if rep.listening then copies else 0;
      Longer(once, s.log, post, stream, n);
      assert Received(s, ws) + Upcoming(after.replicas[home(ws).replica], ws) == stream + Repeat(|s.log|, n);
    }
  }

  /** No message of the run went to a user whose id is the word `broadcast`. */
  ghost predicate NobodyNamedBroadcast(steps: seq<Step>) {
    forall step :: step in steps && step.Publish? && step.destination.ToUser? ==> step.destination.user != "broadcast"
  }

  lemma StepKeeps(home: Socket -> Home, once: bool, s: System, step: Step)
    requires Invariant(home, once, s) && Enabled(home, s, step)
    requires once && step.Publish? && step.destination.ToUser? ==> step.destination.user != "broadcast"
    ensures Invariant(home, once, Next(home, s, step))
  {
    match step
    case Connect(ws) => ConnectKeeps(home, once, s, ws);
    case Disconnect(ws) => ConnectKeeps(home, once, s, ws);
    case Publish(destination, body) =>
      if destination.ToUser? {
        UserCopies(destination.tenant, destination.user);
      } else {
        TenantCopies(destination.tenant);
      }
      PublishKeeps(home, once, s, destination, body);
    case PublishFails =>
    case Listen(r) => ListenKeeps(home, once, s, r);
    case StopListening(r) => ListenKeeps(home, once, s, r);
    case Begin(r) => BeginKeeps(home, once, s, r);
    case Send(r, ws, works) => SendKeeps(home, once, s, r, ws, works);
    case Finish(r) => FinishKeeps(home, once, s, r);
  }

  lemma {:induction false} RunKeeps(home: Socket -> Home, once: bool, n: nat, steps: seq<Step>)
    requires once ==> NobodyNamedBroadcast(steps)
    ensures Invariant(home, once, After(home, n, steps))
  {
    hide Invariant, Next, Enabled;
    if steps == [] {
      StartInvariant(home, once, n);
    } else {
      var before, step := steps[..|steps| - 1], steps[|steps| - 1];
      RunKeeps(home, once, n, before);
      if Enabled(home, After(home, n, before), step) {
        StepKeeps(home, once, After(home, n, before), step);
      }
    }
  }

  // ----- What holds after every run

  /** A socket only ever receives messages for its own user or its own tenant, in publish order. */
  lemma OwnMessagesInOrder(home: Socket -> Home, n: nat, steps: seq<Step>, ws: Socket)
    ensures var s := After(home, n, steps);
            && Ordered(false, Received(s, ws))
            && forall p :: p in Received(s, ws) ==> p < |s.log| && Addressed(s.log[p].destination, home(ws).address)
  {
    hide After, Received, Addressed;
    RunKeeps(home, false, n, steps);
    assert SocketOk(home, false, After(home, n, steps), ws);
  }

  /** It receives none twice, provided no user is called `broadcast`. */
  lemma NoMessageTwice(home: Socket -> Home, n: nat, steps: seq<Step>, ws: Socket)
    requires NobodyNamedBroadcast(steps)
    ensures Ordered(true, Received(After(home, n, steps), ws))
  {
    hide After, Received, Addressed;
    RunKeeps(home, true, n, steps);
    assert SocketOk(home, true, After(home, n, steps), ws);
  }

  /** In every process each tenant's set is the union of its users' sets, at every moment. */
  lemma TenantSetsAreUnions(home: Socket -> Home, n: nat, steps: seq<Step>, r: nat)
    requires r < |After(home, n, steps).replicas|
    ensures Consistent(After(home, n, steps).replicas[r].index)
  {
    hide After, Consistent;
    RunKeeps(home, false, n, steps);
    assert IndexOk(home, After(home, n, steps), r);
  }

  // ----- Nothing is lost while a socket stays connected

  /** Those of `xs` that are meant for `a`. */
  ghost function Mine(log: seq<Post>, a: Address, xs: seq<nat>): seq<nat> {
    if xs == [] then []
    else
      var x := xs[|xs| - 1];
      Mine(log, a, xs[..|xs| - 1]) + if x < |log| && Addressed(log[x].destination, a) then [x] else []
  }

  /** The messages for `a` published from place `k` on. */
  ghost function Due(log: seq<Post>, a: Address, k: nat): seq<nat> {
    if |log| <= k then []
    else Due(log[..|log| - 1], a, k) + if Addressed(log[|log| - 1].destination, a) then [|log| - 1] else []
  }

  lemma {:induction false} MineSplit(log: seq<Post>, a: Address, xs: seq<nat>, ys: seq<nat>)
    ensures Mine(log, a, xs + ys) == Mine(log, a, xs) + Mine(log, a, ys)
  {
    if ys == [] {
      assert xs + ys == xs;
    } else {
      assert (xs + ys)[..|xs + ys| - 1] == xs + ys[..|ys| - 1];
      MineSplit(log, a, xs, ys[..|ys| - 1]);
    }
  }

  lemma {:induction false} MineLonger(log: seq<Post>, post: Post, a: Address, xs: seq<nat>)
    requires forall x :: x in xs ==> x < |log|
    ensures Mine(log + [post], a, xs) == Mine(log, a, xs)
  {
    if xs != [] {
      var front := xs[..|xs| - 1];
      forall x | x in front ensures x < |log| {
        assert x in xs;
      }
      MineLonger(log, post, a, front);
      assert xs[|xs| - 1] in xs;
    }
  }

  lemma MineOne(log: seq<Post>, a: Address, x: nat)
    requires x < |log|
    ensures Mine(log, a, [x]) == if Addressed(log[x].destination, a) then [x] else []
  {
    assert [x][..0] == [];
  }

  lemma {:induction false} AllMine(log: seq<Post>, a: Address, xs: seq<nat>)
    requires forall x :: x in xs ==> x < |log| && Addressed(log[x].destination, a)
    ensures Mine(log, a, xs) == xs
  {
    if xs != [] {
      var front := xs[..|xs| - 1];
      forall x | x in front ensures x < |log| && Addressed(log[x].destination, a) {
        assert x in xs;
      }
      assert xs[|xs| - 1] in xs;
      AllMine(log, a, front);
    }
  }

  /** The socket is registered and its process is subscribed. */
  predicate Attached(home: Socket -> Home, s: System, ws: Socket) {
    home(ws).replica < |s.replicas| && s.replicas[home(ws).replica].listening
    && ws in At(s.replicas[home(ws).replica].index.users, home(ws).address)
  }

  /** Not a step that takes the socket or its process away, nor a send that fails. */
  predicate Faithful(home: Socket -> Home, ws: Socket, step: Step) {
    step != Disconnect(ws) && step != StopListening(home(ws).replica)
    && !(step.Send? && step.ws == ws && !step.works)
  }

  function Stream(home: Socket -> Home, s: System, ws: Socket): seq<nat>
    requires home(ws).replica < |s.replicas|
  {
    Received(s, ws) + Upcoming(s.replicas[home(ws).replica], ws)
  }

  /** A faithful step keeps a socket's own messages and adds a published one that is meant for it. */
  ghost predicate Delivers(home: Socket -> Home, s: System, after: System, ws: Socket, added: seq<nat>) {
    && Attached(home, s, ws) && Attached(home, after, ws)
    && Mine(after.log, home(ws).address, Stream(home, after, ws)) ==
       Mine(s.log, home(ws).address, Stream(home, s, ws)) + added
  }

  lemma IndexDelivers(home: Socket -> Home, s: System, ws: Socket, other: Socket)
    requires Attached(home, s, ws) && home(other).replica < |s.replicas|
    ensures Delivers(home, s, Next(home, s, Connect(other)), ws, [])
    ensures other != ws ==> Delivers(home, s, Next(home, s, Disconnect(other)), ws, [])
  {
    var r := home(ws).replica;
    AddedAt(s.replicas[r].index.users, home(other).address, other, home(ws).address, ws);
    DiscardedAt(s.replicas[r].index.users, home(other).address, other, home(ws).address, ws);
    hide Added, Discarded, At;
    assert Stream(home, Next(home, s, Connect(other)), ws) == Stream(home, s, ws);
    assert Stream(home, Next(home, s, Disconnect(other)), ws) == Stream(home, s, ws);
  }

  lemma PublishEffect(home: Socket -> Home, s: System, destination: Destination, body: string)
    requires Plain(destination)
    ensures var after := Next(home, s, Publish(destination, body));
            && after.log == s.log + [Post(destination, body)] && after.received == s.received
            && |after.replicas| == |s.replicas|
            && forall r :: 0 <= r < |s.replicas| ==>
                 after.replicas[r] == Delivered(s.replicas[r], |s.log|, Copies(ChannelOf(destination)))
  {
    hide Delivered, Copies, ChannelOf, Plain;
  }

  lemma DeliveredOnce(rep: Replica, pos: nat, ws: Socket)
    requires rep.listening
    ensures Upcoming(Delivered(rep, pos, 1), ws) == Upcoming(rep, ws) + [pos]
    ensures Delivered(rep, pos, 1).listening && Delivered(rep, pos, 1).index == rep.index
  {
    assert Repeat(pos, 1) == [pos];
  }

  lemma StreamBelow(home: Socket -> Home, s: System, ws: Socket)
    requires SocketOk(home, true, s, ws) && home(ws).replica < |s.replicas|
    ensures forall x :: x in Stream(home, s, ws) ==> x < |s.log|
  {
    hide Received, Upcoming, Addressed, Ordered;
  }

  lemma PublishDelivers(home: Socket -> Home, s: System, ws: Socket, destination: Destination, body: string)
    requires Invariant(home, true, s) && Attached(home, s, ws) && Plain(destination)
             && Copies(ChannelOf(destination)) == 1
    ensures Delivers(home, s, Next(home, s, Publish(destination, body)), ws,
                     if Addressed(destination, home(ws).address) then [|s.log|] else [])
  {
    var r, a, post := home(ws).replica, home(ws).address, Post(destination, body);
    var after := Next(home, s, Publish(destination, body));
    PublishEffect(home, s, destination, body);
    assert SocketOk(home, true, s, ws);
    StreamBelow(home, s, ws);
    DeliveredOnce(s.replicas[r], |s.log|, ws);
    SameReceived(s, after, ws);
    hide Next, Copies, ChannelOf, Invariant, SocketOk, At, Delivered, Upcoming, Received, Mine, Plain, Addressed;
    var stream := Stream(home, s, ws);
    assert Stream(home, after, ws) == stream + [|s.log|];
    hide Stream;
    MineLonger(s.log, post, a, stream);
    MineSplit(after.log, a, stream, [|s.log|]);
    MineOne(after.log, a, |s.log|);
  }

  lemma BeginDelivers(home: Socket -> Home, s: System, ws: Socket, r: nat)
    requires Invariant(home, true, s) && Attached(home, s, ws) && Enabled(home, s, Begin(r))
    ensures Delivers(home, s, Next(home, s, Begin(r)), ws, [])
  {
    var after := Next(home, s, Begin(r));
    BeginEffect(home, s, r);
    SameReceived(s, after, ws);
    hide Next, ChannelOf, Received, Upcoming;
    if r == home(ws).replica {
      var rep, a := s.replicas[r], home(ws).address;
      var pos := rep.inbox[0];
      ChannelIsReadBack(s.log[pos].destination);
      assert IndexOk(home, s, r);
      TargetsAreAddressed(rep.index, s.log[pos].destination, ws);
      hide Invariant, IndexOk, Targets, Parse, Plain, At;
      BeginUpcoming(rep, after.replicas[r], ws);
      if ws !in after.replicas[r].sending.left {
        Skipped(s.log, a, Received(s, ws), pos, rep.inbox[1..]);
      }
    } else {
      hide Invariant, Targets, Parse, Plain, At;
      assert Stream(home, after, ws) == Stream(home, s, ws);
    }
  }

  lemma Skipped(log: seq<Post>, a: Address, xs: seq<nat>, p: nat, ys: seq<nat>)
    requires p < |log| && !Addressed(log[p].destination, a)
    ensures Mine(log, a, xs + ys) == Mine(log, a, xs + ([p] + ys))
  {
    MineSplit(log, a, xs, ys);
    MineSplit(log, a, xs, [p] + ys);
    MineSplit(log, a, [p], ys);
    MineOne(log, a, p);
  }

  lemma SendDelivers(home: Socket -> Home, s: System, ws: Socket, r: nat, to: Socket, works: bool)
    requires Invariant(home, true, s) && Attached(home, s, ws) && Enabled(home, s, Send(r, to, works))
    requires Faithful(home, ws, Send(r, to, works))
    ensures Delivers(home, s, Next(home, s, Send(r, to, works)), ws, [])
  {
    var after := Next(home, s, Send(r, to, works));
    assert SendingOk(home, s, r);
    assert Received(after, ws) == if to == ws then Received(s, ws) + [s.replicas[r].sending.pos] else Received(s, ws);
    hide Invariant, At, Addressed, Received, SendingOk;
    assert to == ws ==> r == home(ws).replica by { Recipient(home, s, r, to); }
    assert Stream(home, after, ws) == Stream(home, s, ws);
  }

  lemma Recipient(home: Socket -> Home, s: System, r: nat, ws: Socket)
    requires r < |s.replicas| && SendingOk(home, s, r) && s.replicas[r].sending.Busy?
             && ws in s.replicas[r].sending.left
    ensures home(ws).replica == r
  {
  }

  lemma RestDelivers(home: Socket -> Home, s: System, ws: Socket, step: Step)
    requires Attached(home, s, ws) && Enabled(home, s, step) && Faithful(home, ws, step)
    requires step.PublishFails? || step.Listen? || step.StopListening? || step.Finish?
    ensures Delivers(home, s, Next(home, s, step), ws, [])
  {
    var after := Next(home, s, step);
    SameReceived(s, after, ws);
    hide At, Received;
    assert Stream(home, after, ws) == Stream(home, s, ws);
  }

  lemma StepDelivers(home: Socket -> Home, s: System, ws: Socket, step: Step)
    requires Invariant(home, true, s) && Attached(home, s, ws) && Enabled(home, s, step) && Faithful(home, ws, step)
    requires step.Publish? && step.destination.ToUser? ==> step.destination.user != "broadcast"
    ensures Delivers(home, s, Next(home, s, step), ws,
                     if step.Publish? && Addressed(step.destination, home(ws).address) then [|s.log|] else [])
  {
    hide Delivers, Attached;
    match step
    case Connect(other) => IndexDelivers(home, s, ws, other);
    case Disconnect(other) => IndexDelivers(home, s, ws, other);
    case Publish(destination, body) =>
      if destination.ToUser? {
        UserCopies(destination.tenant, destination.user);
      } else {
        TenantCopies(destination.tenant);
      }
      PublishDelivers(home, s, ws, destination, body);
    case PublishFails => RestDelivers(home, s, ws, step);
    case Listen(r) => RestDelivers(home, s, ws, step);
    case StopListening(r) => RestDelivers(home, s, ws, step);
    case Begin(r) => BeginDelivers(home, s, ws, r);
    case Send(r, to, works) => SendDelivers(home, s, ws, r, to, works);
    case Finish(r) => RestDelivers(home, s, ws, step);
  }

  lemma {:induction false} RunDelivers(home: Socket -> Home, n: nat, before: seq<Step>, steps: seq<Step>, ws: Socket)
    requires NobodyNamedBroadcast(before + steps) && Attached(home, After(home, n, before), ws)
    requires forall step :: step in steps ==> Faithful(home, ws, step)
    ensures var s, t := After(home, n, before), After(home, n, before + steps);
            && Attached(home, t, ws) && |s.log| <= |t.log|
            && Mine(t.log, home(ws).address, Stream(home, t, ws)) ==
                 Mine(s.log, home(ws).address, Stream(home, s, ws)) + Due(t.log, home(ws).address, |s.log|)
  {
    hide Attached, Mine, Stream, Faithful, Invariant, Addressed;
    var s := After(home, n, before);
    if steps == [] {
      assert before + steps == before;
      assert Due(s.log, home(ws).address, |s.log|) == [];
    } else {
      var most, step := steps[..|steps| - 1], steps[|steps| - 1];
      var run := before + steps;
      assert run[..|run| - 1] == before + most && run[|run| - 1] == step;
      assert step in steps && step in run;
      assert forall x :: x in before + most ==> x in run;
      RunDelivers(home, n, before, most, ws);
      RunKeeps(home, true, n, before + most);
      var mid := After(home, n, before + most);
      hide After;
      if Enabled(home, mid, step) {
        StepDelivers(home, mid, ws, step);
        DueAfter(home, mid, step, home(ws).address, |s.log|);
        assert After(home, n, run) == Next(home, mid, step) by { LastStep(home, n, run); }
        hide Next;
      } else {
        assert After(home, n, run) == mid by { LastStep(home, n, run); }
      }
    }
  }

  lemma LastStep(home: Socket -> Home, n: nat, run: seq<Step>)
    requires run != []
    ensures var s, step := After(home, n, run[..|run| - 1]), run[|run| - 1];
            After(home, n, run) == if Enabled(home, s, step) then Next(home, s, step) else s
  {
  }

  lemma DueAfter(home: Socket -> Home, s: System, step: Step, a: Address, k: nat)
    requires Enabled(home, s, step) && k <= |s.log|
    ensures |s.log| <= |Next(home, s, step).log|
    ensures Due(Next(home, s, step).log, a, k) ==
            Due(s.log, a, k) + if step.Publish? && Addressed(step.destination, a) then [|s.log|] else []
  {
    LogAfter(home, s, step);
    hide Next, Enabled, Addressed;
    if step.Publish? {
      assert (s.log + [Post(step.destination, step.body)])[..|s.log|] == s.log;
    }
  }

  lemma LogAfter(home: Socket -> Home, s: System, step: Step)
    requires Enabled(home, s, step)
    ensures Next(home, s, step).log == if step.Publish? then s.log + [Post(step.destination, step.body)] else s.log
  {
  }

  /**
   While a socket stays registered, its process subscribed and its sends work, it loses nothing:
   once its process has nothing left in hand it has received, after what it was owed before,
   exactly the messages for its user or tenant published since, each once and in order.
   */
  lemma NothingIsLost(home: Socket -> Home, n: nat, before: seq<Step>, steps: seq<Step>, ws: Socket)
    requires NobodyNamedBroadcast(before + steps) && Attached(home, After(home, n, before), ws)
    requires forall step :: step in steps ==> Faithful(home, ws, step)
    requires var t := After(home, n, before + steps);
             home(ws).replica < |t.replicas| && Upcoming(t.replicas[home(ws).replica], ws) == []
    ensures var s, t := After(home, n, before), After(home, n, before + steps);
            Received(t, ws) ==
            Mine(s.log, home(ws).address, Stream(home, s, ws)) + Due(t.log, home(ws).address, |s.log|)
  {
    hide After, Mine, Received, Addressed, Upcoming, Due;
    RunDelivers(home, n, before, steps, ws);
    OwnMessagesInOrder(home, n, before + steps, ws);
    var t := After(home, n, before + steps);
    assert Stream(home, t, ws) == Received(t, ws) + [];
    assert Received(t, ws) + [] == Received(t, ws);
    AllMine(t.log, home(ws).address, Received(t, ws));
  }

  /** Connecting to a process that listens attaches the socket, and so does listening for one that is connected. */
  lemma ConnectAttaches(home: Socket -> Home, n: nat, steps: seq<Step>, ws: Socket)
    ensures var s, r := After(home, n, steps), home(ws).replica;
            && (r < |s.replicas| && s.replicas[r].listening ==>
                  Attached(home, After(home, n, steps + [Connect(ws)]), ws))
            && (r < |s.replicas| && ws in At(s.replicas[r].index.users, home(ws).address) ==>
                  Attached(home, After(home, n, steps + [Listen(r)]), ws))
  {
    var s, r := After(home, n, steps), home(ws).replica;
    LastStep(home, n, steps + [Connect(ws)]);
    LastStep(home, n, steps + [Listen(r)]);
    assert (steps + [Connect(ws)])[..|steps|] == steps && (steps + [Listen(r)])[..|steps|] == steps;
    hide After;
  }

  lemma {:induction false} DueHolds(log: seq<Post>, a: Address, k: nat, pos: nat)
    requires k <= pos < |log| && Addressed(log[pos].destination, a)
    ensures pos in Due(log, a, k)
  {
    if pos < |log| - 1 {
      DueHolds(log[..|log| - 1], a, k, pos);
    }
  }

  lemma {:induction false} LogGrows(home: Socket -> Home, n: nat, run: seq<Step>, more: seq<Step>)
    ensures After(home, n, run).log <= After(home, n, run + more).log
  {
    if more == [] {
      assert run + more == run;
    } else {
      var m := |more| - 1;
      LogGrows(home, n, run, more[..m]);
      assert (run + more)[..|run + more| - 1] == run + more[..m];
      LastStep(home, n, run + more);
      var s, step := After(home, n, run + more[..m]), more[m];
      hide After;
      if Enabled(home, s, step) {
        LogAfter(home, s, step);
      }
      hide Next, Enabled;
    }
  }

  /** A publish is kept in the log, at the place it had when it was made. */
  lemma PublishIsLogged(home: Socket -> Home, n: nat, before: seq<Step>, step: Step, rest: seq<Step>)
    requires step.Publish? && Plain(step.destination)
    ensures var s, t := After(home, n, before), After(home, n, before + [step] + rest);
            |s.log| < |t.log| && t.log[|s.log|] == Post(step.destination, step.body)
  {
    var s := After(home, n, before);
    var run := before + [step];
    assert run[..|run| - 1] == before;
    LastStep(home, n, run);
    assert Enabled(home, s, step);
    LogAfter(home, s, step);
    LogGrows(home, n, run, rest);
    hide After, Next, Enabled;
  }

  /**
   While its socket stays attached and its sends work, what anybody publishes to a user or to the whole
   tenant arrives there: once the process has nothing left in hand, the socket has received it.
   */
  lemma PublishArrives(home: Socket -> Home, n: nat, before: seq<Step>, first: seq<Step>, step: Step, rest: seq<Step>,
                       ws: Socket) returns (pos: nat)
    requires var steps := first + [step] + rest;
             && NobodyNamedBroadcast(before + steps) && Attached(home, After(home, n, before), ws)
             && forall x :: x in steps ==> Faithful(home, ws, x)
    requires var t := After(home, n, before + (first + [step] + rest));
             home(ws).replica < |t.replicas| && Upcoming(t.replicas[home(ws).replica], ws) == []
    requires ':' !in home(ws).address.tenant && ':' !in home(ws).address.user
    requires step.Publish? && Addressed(step.destination, home(ws).address)
    ensures var t := After(home, n, before + (first + [step] + rest));
            pos in Received(t, ws) && pos < |t.log| && t.log[pos] == Post(step.destination, step.body)
  {
    var steps := first + [step] + rest;
    assert Plain(step.destination);
    hide *;
    NothingIsLost(home, n, before, steps, ws);
    InTurn(before, first, step, rest);
    pos := LoggedSince(home, n, before, before + first, first, step, rest);
    var s, t, a := After(home, n, before), After(home, n, before + steps), home(ws).address;
    DueHolds(t.log, a, |s.log|, pos);
    InEither(pos, Mine(s.log, a, Stream(home, s, ws)), Due(t.log, a, |s.log|));
  }

  lemma InTurn(before: seq<Step>, first: seq<Step>, step: Step, rest: seq<Step>)
    ensures before + (first + [step] + rest) == before + first + [step] + rest
  {
  }

  lemma LoggedSince(home: Socket -> Home, n: nat, before: seq<Step>, early: seq<Step>, first: seq<Step>, step: Step,
                    rest: seq<Step>) returns (pos: nat)
    requires early == before + first && step.Publish? && Plain(step.destination)
    ensures var s, t := After(home, n, before), After(home, n, early + [step] + rest);
            |s.log| <= pos < |t.log| && t.log[pos] == Post(step.destination, step.body)
  {
    LogGrows(home, n, before, first);
    PublishIsLogged(home, n, early, step, rest);
    pos := |After(home, n, early).log|;
    hide After, Plain;
  }

  lemma InEither(x: nat, xs: seq<nat>, ys: seq<nat>)
    requires x in ys
    ensures x in xs + ys
  {
  }
}
