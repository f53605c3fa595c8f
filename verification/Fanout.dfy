/**
 The WebSocket fan-out: two indexes of sockets in every web process, and a pub/sub that carries
 each published message to all of them.
 */
module Fanout {
  import opened Common
  import opened Text

  // ----- Channels

  function UserChannel(tenant: string, user: string): string {
    "ws:tenant:" + tenant + ":user:" + user
  }

  function TenantChannel(tenant: string): string {
    "ws:tenant:" + tenant + ":broadcast"
  }

  predicate PlainId(id: string) {
    ':' !in id
  }

  datatype Address = Address(tenant: string, user: string)
  datatype Destination = ToUser(tenant: string, user: string) | ToTenant(tenant: string) | ToNobody

  /** How a channel name is read back: five parts with `user`, four with `broadcast`, anything else is dropped. */
  function Parse(channel: string): Destination {
    var parts := Split(channel, ':');
    if |parts| == 5 && parts[0] == "ws" && parts[3] == "user" then ToUser(parts[2], parts[4])
    else if |parts| == 4 && parts[0] == "ws" && parts[3] == "broadcast" then ToTenant(parts[2])
    else ToNobody
  }

  lemma SplitFirst(a: string, rest: string)
    requires PlainId(a)
    ensures Split(a + ":" + rest, ':') == [a] + Split(rest, ':')
  {
    SplitAt(a, ':', rest);
    SplitWithout(a, ':');
  }

  /** A channel is read back as the user it was made for. */
  lemma UserChannelRoundTrip(tenant: string, user: string)
    requires PlainId(tenant) && PlainId(user)
    ensures Parse(UserChannel(tenant, user)) == ToUser(tenant, user)
  {
    hide Split;
    var last := user;
    var three := "user" + ":" + last;
    var two := tenant + ":" + three;
    var one := "tenant" + ":" + two;
    assert UserChannel(tenant, user) == "ws" + ":" + one;
    SplitWithout(user, ':');
    SplitFirst("user", last);
    SplitFirst(tenant, three);
    SplitFirst("tenant", two);
    SplitFirst("ws", one);
    assert Split(UserChannel(tenant, user), ':') == ["ws", "tenant", tenant, "user", user];
  }

  lemma TenantChannelRoundTrip(tenant: string)
    requires PlainId(tenant)
    ensures Parse(TenantChannel(tenant)) == ToTenant(tenant)
  {
    hide Split;
    var two := tenant + ":" + "broadcast";
    var one := "tenant" + ":" + two;
    assert TenantChannel(tenant) == "ws" + ":" + one;
    SplitWithout("broadcast", ':');
    SplitFirst(tenant, "broadcast");
    SplitFirst("tenant", two);
    SplitFirst("ws", one);
    assert Split(TenantChannel(tenant), ':') == ["ws", "tenant", tenant, "broadcast"];
  }

  /** What a channel of five or four parts says; the second part, `tenant`, is not looked at. */
  ghost predicate Says(channel: string, d: Destination) {
    match d
    case ToUser(tenant, user) =>
      PlainId(tenant) && PlainId(user) &&
      exists kind :: PlainId(kind) && channel == Join(["ws", kind, tenant, "user", user], ':')
    case ToTenant(tenant) =>
      PlainId(tenant) && exists kind :: PlainId(kind) && channel == Join(["ws", kind, tenant, "broadcast"], ':')
    case ToNobody => false
  }

  lemma ParsedSays(channel: string, d: Destination)
    requires !d.ToNobody? && Parse(channel) == d
    ensures Says(channel, d)
  {
    var parts := Split(channel, ':');
    PartsHoldNoSeparator(channel, ':');
    JoinSplit(channel, ':');
    hide Split, Join;
    assert parts[1] in parts && parts[2] in parts && parts[|parts| - 1] in parts;
    if d.ToUser? {
      assert parts == ["ws", parts[1], d.tenant, "user", d.user];
    } else {
      assert parts == ["ws", parts[1], d.tenant, "broadcast"];
    }
  }

  lemma SaysParsed(channel: string, d: Destination)
    requires Says(channel, d)
    ensures Parse(channel) == d
  {
    hide Split, Join;
    assert PlainId("ws") && PlainId("user") && PlainId("broadcast");
    if d.ToUser? {
      var kind :| PlainId(kind) && channel == Join(["ws", kind, d.tenant, "user", d.user], ':');
      SplitJoin(["ws", kind, d.tenant, "user", d.user], ':');
    } else {
      var kind :| PlainId(kind) && channel == Join(["ws", kind, d.tenant, "broadcast"], ':');
      SplitJoin(["ws", kind, d.tenant, "broadcast"], ':');
    }
  }

  /** A channel is read as a destination exactly when it says so; every other name is dropped. */
  lemma ParseIsExact(channel: string, d: Destination)
    requires !d.ToNobody?
    ensures Parse(channel) == d <==> Says(channel, d)
  {
    hide *;
    if Parse(channel) == d {
      ParsedSays(channel, d);
    }
    if Says(channel, d) {
      SaysParsed(channel, d);
    }
  }

  // ----- Subscription patterns

  /** `ws:tenant:*:user:*`, where a star stands for any text. */
  ghost predicate MatchesUserPattern(channel: string) {
    exists a, b :: channel == "ws:tenant:" + a + ":user:" + b
  }

  ghost predicate MatchesTenantPattern(channel: string) {
    exists a :: channel == "ws:tenant:" + a + ":broadcast"
  }

  /** The pub/sub delivers a message once for every subscribed pattern its channel matches. */
  ghost function Copies(channel: string): nat {
    (if MatchesUserPattern(channel) then 1 else 0) + (if MatchesTenantPattern(channel) then 1 else 0)
  }

  lemma {:induction false} LastPart(s: string, tail: string)
    requires PlainId(tail)
    ensures var parts := Split(s + ":" + tail, ':'); parts[|parts| - 1] == tail
  {
    SplitAt(s, ':', tail);
    SplitWithout(tail, ':');
  }

  lemma LooksLikeBroadcast(tenant: string, user: string)
    requires PlainId(tenant) && PlainId(user)
    ensures MatchesTenantPattern(UserChannel(tenant, user)) <==> user == "broadcast"
  {
    hide Split;
    var channel := UserChannel(tenant, user);
    var head := "ws:tenant:" + tenant + ":user";
    assert channel == head + ":" + user;
    LastPart(head, user);
    if MatchesTenantPattern(channel) {
      var a :| channel == "ws:tenant:" + a + ":broadcast";
      assert channel == ("ws:tenant:" + a) + ":" + "broadcast";
      LastPart("ws:tenant:" + a, "broadcast");
    }
    if user == "broadcast" {
      assert channel == "ws:tenant:" + (tenant + ":user") + ":broadcast";
    }
  }

  /** A user's message is delivered once, except to a user whose id is the word `broadcast`: twice. */
  lemma UserCopies(tenant: string, user: string)
    requires PlainId(tenant) && PlainId(user)
    ensures Copies(UserChannel(tenant, user)) == if user == "broadcast" then 2 else 1
  {
    LooksLikeBroadcast(tenant, user);
    assert MatchesUserPattern(UserChannel(tenant, user));
  }

  /** A tenant's message is delivered exactly once. */
  lemma TenantCopies(tenant: string)
    requires PlainId(tenant)
    ensures Copies(TenantChannel(tenant)) == 1
  {
    hide Split;
    var channel := TenantChannel(tenant);
    assert MatchesTenantPattern(channel);
    if MatchesUserPattern(channel) {
      var a, b :| channel == "ws:tenant:" + a + ":user:" + b;
      assert channel[10..] == a + ":user:" + b && channel[10..] == tenant + ":broadcast";
      PartCounts(tenant, a, b);
      assert false;
    }
  }

  lemma PartCounts(tenant: string, a: string, b: string)
    requires PlainId(tenant)
    ensures |Split(tenant + ":broadcast", ':')| == 2 && |Split(a + ":user:" + b, ':')| >= 3
  {
    hide Split;
    assert a + ":user:" + b == a + ":" + ("user" + ":" + b);
    assert tenant + ":broadcast" == tenant + ":" + "broadcast";
    SplitFirst(tenant, "broadcast");
    SplitWithout("broadcast", ':');
    SplitFirst("user", b);
    SplitAt(a, ':', "user" + ":" + b);
  }
}
