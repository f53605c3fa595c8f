/** The client address behind trusted proxies: the right-most hop of X-Forwarded-For no trusted proxy owns. */
module ClientIp {
  import opened Common
  import opened Text

  // ----- Addresses and networks

  datatype Address = Address(version: int, value: nat)
  /** A network of `size` addresses, a power of two: its members agree with `base` in the bits above. */
  datatype Network = Network(version: int, base: nat, size: nat)

  /** How `ipaddress` reads text; malformed text has no address and no network. */
  datatype IpLibrary = IpLibrary(address: string -> Option<Address>, network: string -> Option<Network>)

  /** `addr in net`: same version, and equal under the network mask. */
  predicate Contains(net: Network, addr: Address) {
    net.version == addr.version && net.size > 0 && net.base / net.size == addr.value / net.size
  }

  // 10.0.0.0/8, 172.16.0.0/12, 192.168.0.0/16, 127.0.0.0/8, ::1/128 and fc00::/7.
  const PRIVATE_PROXIES: seq<Network> := [
    Network(4, 0x0A000000, 0x1000000),
    Network(4, 0xAC100000, 0x100000),
    Network(4, 0xC0A80000, 0x10000),
    Network(4, 0x7F000000, 0x1000000),
    Network(6, 1, 1),
    Network(6, 0xFC000000000000000000000000000000, 0x2000000000000000000000000000000)
  ]

  // ----- Which peers are trusted

  /** Some entry of the comma-separated list reads as `net`; empty and malformed entries read as nothing. */
  predicate Lists(lib: IpLibrary, tokens: seq<string>, net: Network) {
    exists token :: token in tokens && Strip(token) != [] && lib.network(Strip(token)) == Some(net)
  }

  method ParseTrustedProxies(lib: IpLibrary, raw: string) returns (nets: seq<Network>)
    ensures forall net :: net in nets <==> Lists(lib, Split(raw, ','), net)
  {
    nets := [];
    var tokens := Split(raw, ',');
    for i := 0 to |tokens|
      invariant forall net :: net in nets <==> Lists(lib, tokens[..i], net)
    {
      assert tokens[..i + 1] == tokens[..i] + [tokens[i]];
      var token := Strip(tokens[i]);
      if token != [] && lib.network(token).Some? {
        nets := nets + [lib.network(token).value];
      }
    }
    assert tokens[..|tokens|] == tokens;
  }

  predicate Trusted(lib: IpLibrary, nets: seq<Network>, peer: string) {
    peer != [] && lib.address(peer).Some? && exists net :: net in nets && Contains(net, lib.address(peer).value)
  }

  // ----- The hops of a header

  function NonEmpty(tokens: seq<string>): seq<string> {
    if tokens == [] then []
    else (if Strip(tokens[0]) == [] then [] else [Strip(tokens[0])]) + NonEmpty(tokens[1..])
  }

  function Hops(header: Option<string>): seq<string> {
    NonEmpty(Split(header.GetOr(""), ','))
  }

  /** The answer for a peer and a header: what the resolver must return. */
  ghost predicate Resolves(lib: IpLibrary, nets: seq<Network>, peer: Option<string>, header: Option<string>,
                           ip: Option<string>)
  {
    var hops := Hops(header);
    if peer.None? || !Trusted(lib, nets, peer.value) || hops == [] then ip == peer
    else if forall k :: 0 <= k < |hops| ==> Trusted(lib, nets, hops[k]) then ip == Some(hops[|hops| - 1])
    else exists k :: 0 <= k < |hops| && ip == Some(hops[k]) && !Trusted(lib, nets, hops[k])
                     && forall j :: k < j < |hops| ==> Trusted(lib, nets, hops[j])
  }

  /**
   `trusted` and `demoTrusted` are the two settings; without a usable entry the private ranges
   are trusted.
   */
  method ResolveClientIp(lib: IpLibrary, trusted: string, demoTrusted: string, peer: Option<string>,
                         header: Option<string>)
    returns (ip: Option<string>, nets: seq<Network>)
    ensures Resolves(lib, nets, peer, header, ip)
    ensures var tokens := Split(if trusted != [] then trusted else demoTrusted, ',');
            && ((forall net :: !Lists(lib, tokens, net)) ==> nets == PRIVATE_PROXIES)
            && ((exists net :: Lists(lib, tokens, net)) ==> forall net :: net in nets <==> Lists(lib, tokens, net))
  {
    hide Trusted, Hops, Lists, PRIVATE_PROXIES;
    nets := ParseTrustedProxies(lib, if trusted != [] then trusted else demoTrusted);
    assert nets != [] ==> nets[0] in nets;
    if nets == [] {
      nets := PRIVATE_PROXIES;
    }
    if peer.None? || !Trusted(lib, nets, peer.value) {
      return peer, nets;
    }
    var hops := Hops(header);
    var n := |hops|;
    while n > 0
      invariant 0 <= n <= |hops|
      invariant forall j :: n <= j < |hops| ==> Trusted(lib, nets, hops[j])
    {
      if !Trusted(lib, nets, hops[n - 1]) {
        return Some(hops[n - 1]), nets;
      }
      n := n - 1;
    }
    ip := if hops != [] then Some(hops[|hops| - 1]) else peer;
  }

  lemma AnswerIsUnique(lib: IpLibrary, nets: seq<Network>, peer: Option<string>, header: Option<string>,
                       ip: Option<string>, other: Option<string>)
    requires Resolves(lib, nets, peer, header, ip) && Resolves(lib, nets, peer, header, other)
    ensures ip == other
  {
  }

  // ----- A request on its way through the proxies

  /** What a proxy forwards: the header it got, in whatever state, and the peer it saw. */
  function AppendPeer(header: Option<string>, peer: string): string {
    match header
    case None => peer
    case Some(h) => h + [','] + ([' '] + peer)
  }

  /** The header at the application after `seen`, the peers recorded on the way, nearest to the client first. */
  function Forwarded(sent: Option<string>, seen: seq<string>): Option<string> {
    if seen == [] then sent
    else Some(AppendPeer(Forwarded(sent, seen[..|seen| - 1]), seen[|seen| - 1]))
  }

  /** An address as a proxy writes it. */
  predicate Clean(address: string) {
    address != [] && ',' !in address && forall c :: c in address ==> !IsSpace(c)
  }

  lemma {:induction false} NonEmptySplit(a: seq<string>, b: seq<string>)
    ensures NonEmpty(a + b) == NonEmpty(a) + NonEmpty(b)
  {
    if a == [] {
      assert a + b == b;
    } else {
      assert (a + b)[1..] == a[1..] + b;
      NonEmptySplit(a[1..], b);
    }
  }

  lemma AppendedHop(header: Option<string>, peer: string)
    requires Clean(peer)
    ensures Hops(Some(AppendPeer(header, peer))) == Hops(header) + [peer]
  {
    StripClean(peer);
    match header
    case None =>
      SplitWithout(peer, ',');
    case Some(h) =>
      SplitAt(h, ',', [' '] + peer);
      SplitWithout([' '] + peer, ',');
      StripLeadingSpace(peer);
      NonEmptySplit(Split(h, ','), [[' '] + peer]);
      assert h + [','] + ([' '] + peer) == AppendPeer(header, peer);
  }

  lemma {:induction false} ForwardedHops(sent: Option<string>, seen: seq<string>)
    requires forall i :: 0 <= i < |seen| ==> Clean(seen[i])
    ensures Hops(Forwarded(sent, seen)) == Hops(sent) + seen
  {
    if seen != [] {
      hide Hops, AppendPeer, Clean;
      var n := |seen| - 1;
      ForwardedHops(sent, seen[..n]);
      assert seen == seen[..n] + [seen[n]];
      AppendedHop(Forwarded(sent, seen[..n]), seen[n]);
    }
  }

  /**
   A client whose address is not trusted, behind one or more trusted proxies that each append the
   peer they saw, resolves to its own address whatever header it sent along.
   */
  lemma ForgedHeaderHasNoEffect(lib: IpLibrary, nets: seq<Network>, client: string, proxies: seq<string>,
                                sent: Option<string>, ip: Option<string>)
    requires proxies != [] && Clean(client) && forall i :: 0 <= i < |proxies| ==> Clean(proxies[i])
    requires !Trusted(lib, nets, client) && forall i :: 0 <= i < |proxies| ==> Trusted(lib, nets, proxies[i])
    requires var last := |proxies| - 1;
             Resolves(lib, nets, Some(proxies[last]), Forwarded(sent, [client] + proxies[..last]), ip)
    ensures ip == Some(client)
  {
    var seen := [client] + proxies[..|proxies| - 1];
    ForwardedHops(sent, seen);
    hide Trusted, Hops, Forwarded, Clean;
    var hops := Hops(Forwarded(sent, seen));
    var k := |Hops(sent)|;
    assert hops == Hops(sent) + seen && hops[k] == seen[0] == client;
    forall j | k < j < |hops| ensures Trusted(lib, nets, hops[j]) {
      assert hops[j] == seen[j - k] == proxies[j - k - 1];
    }
  }

  /** From a peer that is not trusted the header has no effect at all. */
  lemma UntrustedPeerStandsForItself(lib: IpLibrary, nets: seq<Network>, peer: Option<string>, header: Option<string>,
                                     ip: Option<string>)
    requires peer.Some? ==> !Trusted(lib, nets, peer.value)
    ensures Resolves(lib, nets, peer, header, ip) <==> ip == peer
  {
  }

  lemma Blocks(k: nat, q: nat, r: nat)
    requires r < q
    ensures r * k + k <= q * k
  {
    Distribute(r, 1, k);
    Distribute(r + 1, q - r - 1, k);
    NotNegative(q - r - 1, k);
  }

  lemma Distribute(a: nat, b: nat, k: nat)
    ensures (a + b) * k == a * k + b * k
  {
  }

  lemma NotNegative(a: nat, k: nat)
    ensures a * k >= 0
  {
  }

  /** The mask test is a range test. */
  lemma MaskIsRange(net: Network, a: Address)
    requires net.size > 0 && net.base % net.size == 0
    ensures Contains(net, a) <==> net.version == a.version && net.base <= a.value < net.base + net.size
  {
    var q, r, k := net.base / net.size, a.value / net.size, net.size;
    assert net.base == q * k && r * k <= a.value < r * k + k;
    if r < q {
      Blocks(k, q, r);
    } else if r > q {
      Blocks(k, r, q);
    }
  }

  lemma TrustedBySix(lib: IpLibrary, nets: seq<Network>, peer: string, a: Address)
    requires peer != [] && lib.address(peer) == Some(a) && |nets| == 6
    ensures Trusted(lib, nets, peer) <==> exists k :: 0 <= k < 6 && Contains(nets[k], a)
  {
    hide Contains;
    assert forall net :: net in nets <==> exists k :: 0 <= k < 6 && net == nets[k];
  }

  lemma PrivateRange(k: nat, a: Address)
    requires k < 6
    ensures Contains(PRIVATE_PROXIES[k], a) <==>
            PRIVATE_PROXIES[k].version == a.version &&
            PRIVATE_PROXIES[k].base <= a.value < PRIVATE_PROXIES[k].base + PRIVATE_PROXIES[k].size
  {
    hide Contains;
    MaskIsRange(PRIVATE_PROXIES[k], a);
  }

  /** The fallback trusts exactly the private ranges, loopback and the unique local addresses. */
  lemma PrivateRanges(lib: IpLibrary, peer: string, a: Address)
    requires peer != [] && lib.address(peer) == Some(a)
    requires (a.version == 4 && a.value < 0x100000000)
             || (a.version == 6 && a.value < 0x100000000000000000000000000000000)
    ensures Trusted(lib, PRIVATE_PROXIES, peer) <==>
            (if a.version == 4
             then 0x0A000000 <= a.value <= 0x0AFFFFFF || 0xAC100000 <= a.value <= 0xAC1FFFFF ||
                  0xC0A80000 <= a.value <= 0xC0A8FFFF || 0x7F000000 <= a.value <= 0x7FFFFFFF
             else a.value == 1 || 0xFC000000000000000000000000000000 <= a.value <= 0xFDFFFFFFFFFFFFFFFFFFFFFFFFFFFFFF)
  {
    hide Contains, Trusted;
    TrustedBySix(lib, PRIVATE_PROXIES, peer, a);
    PrivateRange(0, a);
    PrivateRange(1, a);
    PrivateRange(2, a);
    PrivateRange(3, a);
    PrivateRange(4, a);
    PrivateRange(5, a);
  }
}
