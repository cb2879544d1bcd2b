/** Which address a login came from when proxies stand in between.

    X-Forwarded-For lists hops from the client to the application.  The code walks it from the application's
    end, skips proxies the deployment trusts, and takes the first address that is left; an entry it cannot read
    ends the walk without an answer.  Address syntax and prefix arithmetic are the library's. */
module ForwardedFor {

  import opened Wrappers
  import opened Text

  type Addr = int

  /** canonical is the trimmed canonical text of an address, empty when there is none; address parses such text;
      proxies are the trusted prefixes, each a membership test. */
  datatype Network = Network(canonical: string -> string, address: string -> Option<Addr>, proxies: seq<Addr -> bool>)

  predicate IsTrusted(net: Network, addr: Addr) {
    exists i :: 0 <= i < |net.proxies| && net.proxies[i](addr)
  }

  /** isTrustedProxy: the loop over the prefixes. */
  method CheckTrusted(net: Network, addr: Addr) returns (trusted: bool)
    ensures trusted <==> IsTrusted(net, addr)
  {
    for i := 0 to |net.proxies|
      invariant forall k :: 0 <= k < i ==> !net.proxies[k](addr)
    {
      if net.proxies[i](addr) {
        return true;
      }
    }
    trusted := false;
  }

  /** What one entry of the header is. */
  datatype Hop = Unreadable | Proxy | Client(ip: string)

  function Read(net: Network, entry: string): Hop {
    var ip := net.canonical(entry);
    if ip == "" then Unreadable
    else match net.address(ip)
      case None => Unreadable
      case Some(addr) => if IsTrusted(net, addr) then Proxy else Client(ip)
  }

  /** The answer the hops have: the client of the last hop that is not a trusted proxy, if that is one. */
  ghost predicate IsAnswer(net: Network, entries: seq<string>, ip: string) {
    if ip == "" then
      forall i :: 0 <= i < |entries| && LastDecisive(net, entries, i) ==> Read(net, entries[i]) == Unreadable
    else
      exists i :: 0 <= i < |entries| && LastDecisive(net, entries, i) && Read(net, entries[i]) == Client(ip)
  }

  ghost predicate LastDecisive(net: Network, entries: seq<string>, i: nat)
    requires i < |entries|
  {
    Read(net, entries[i]) != Proxy && forall j :: i < j < |entries| ==> Read(net, entries[j]) == Proxy
  }

  lemma AnswerIsUnique(net: Network, entries: seq<string>, a: string, b: string)
    requires IsAnswer(net, entries, a) && IsAnswer(net, entries, b)
    ensures a == b
  {
    if a != "" {
      var i :| 0 <= i < |entries| && LastDecisive(net, entries, i) && Read(net, entries[i]) == Client(a);
      if b != "" {
        var j :| 0 <= j < |entries| && LastDecisive(net, entries, j) && Read(net, entries[j]) == Client(b);
        assert i == j;
      }
    }
  }

  /** trustedForwardedClientIP. */
  method ForwardedClient(net: Network, header: string) returns (ip: string)
    ensures IsAnswer(net, Split(header, ','), ip)
  {
    var entries := Split(header, ',');
    var i := |entries|;
    while i > 0
      invariant 0 <= i <= |entries|
      invariant forall j :: i <= j < |entries| ==> Read(net, entries[j]) == Proxy
    {
      i := i - 1;
      ip := net.canonical(entries[i]);
      if ip == "" {
        return "";
      }
      var addr := net.address(ip);
      if addr.None? {
        return "";
      }
      var trusted := CheckTrusted(net, addr.value);
      if !trusted {
        assert LastDecisive(net, entries, i) && Read(net, entries[i]) == Client(ip);
        return;
      }
    }
    ip := "";
  }

  ghost predicate Decided(net: Network, header: string) {
    exists i :: 0 <= i < |Split(header, ',')| && Read(net, Split(header, ',')[i]) != Proxy
  }

  lemma LaterEntriesShift(net: Network, front: seq<string>, own: seq<string>, i: nat)
    requires i < |own|
    ensures LastDecisive(net, front + own, |front| + i) <==> LastDecisive(net, own, i)
  {
    var all := front + own;
    assert forall j :: i < j < |own| ==> all[|front| + j] == own[j];
    assert forall j :: |front| + i < j < |all| ==> all[j] == own[j - |front|];
  }

  lemma FrontIsIgnored(net: Network, front: seq<string>, own: seq<string>, ip: string)
    requires exists i :: 0 <= i < |own| && Read(net, own[i]) != Proxy
    ensures IsAnswer(net, front + own, ip) <==> IsAnswer(net, own, ip)
  {
    var all := front + own;
    var m :| 0 <= m < |own| && Read(net, own[m]) != Proxy;
    forall i | 0 <= i < |own| ensures (LastDecisive(net, all, |front| + i) <==> LastDecisive(net, own, i)) && all[|front| + i] == own[i] {
      LaterEntriesShift(net, front, own, i);
    }
    forall i | 0 <= i < |front| ensures !LastDecisive(net, all, i) {
      assert all[|front| + m] == own[m];
    }
  }

  /** What a client puts in front of the header changes the answer only while every hop the deployment appended
      is a trusted proxy: once one of them is a client or unreadable, no prefix matters. */
  lemma PrefixIsIgnored(net: Network, forged: string, header: string, ip: string)
    requires Decided(net, header)
    ensures IsAnswer(net, Split(forged + "," + header, ','), ip) <==> IsAnswer(net, Split(header, ','), ip)
  {
    SplitJoined(forged, ',', header);
    FrontIsIgnored(net, Split(forged, ','), Split(header, ','), ip);
  }

  lemma FrontDecides(net: Network, front: seq<string>, own: seq<string>, ip: string)
    requires forall i :: 0 <= i < |own| ==> Read(net, own[i]) == Proxy
    ensures IsAnswer(net, front + own, ip) <==> IsAnswer(net, front, ip)
  {
    var all := front + own;
    forall i | 0 <= i < |front| ensures LastDecisive(net, all, i) <==> LastDecisive(net, front, i) {
      assert forall j :: |front| <= j < |all| ==> all[j] == own[j - |front|];
      assert forall j :: 0 <= j < |front| ==> all[j] == front[j];
    }
    forall i | |front| <= i < |all| ensures !LastDecisive(net, all, i) {
      assert all[i] == own[i - |front|];
    }
  }

  /** Otherwise the answer is the one the prefix has. */
  lemma PrefixDecides(net: Network, forged: string, header: string, ip: string)
    requires !Decided(net, header)
    ensures IsAnswer(net, Split(forged + "," + header, ','), ip) <==> IsAnswer(net, Split(forged, ','), ip)
  {
    SplitJoined(forged, ',', header);
    FrontDecides(net, Split(forged, ','), Split(header, ','), ip);
  }

  /** Whether the header counts: proxy headers are on, prefixes are configured and the peer is one of them. */
  predicate HeaderCounts(net: Network, trustHeaders: bool, peer: Option<Addr>) {
    trustHeaders && net.proxies != [] && peer.Some? && IsTrusted(net, peer.value)
  }

  /** The address a login is put down to: the header's answer if it counts and has one, the peer's own otherwise. */
  ghost predicate IsLogin(net: Network, trustHeaders: bool, peer: Option<Addr>, header: string, peerIp: string, ip: string) {
    if HeaderCounts(net, trustHeaders, peer) then
      (ip == peerIp && IsAnswer(net, Split(header, ','), "")) || (ip != "" && IsAnswer(net, Split(header, ','), ip))
    else ip == peerIp
  }

  /** loginClientIP. */
  method LoginClient(net: Network, trustHeaders: bool, peer: Option<Addr>, header: string, peerIp: string) returns (ip: string)
    ensures IsLogin(net, trustHeaders, peer, header, peerIp, ip)
  {
    if trustHeaders && net.proxies != [] && peer.Some? {
      var trusted := CheckTrusted(net, peer.value);
      if trusted {
        ip := ForwardedClient(net, header);
        if ip != "" {
          return;
        }
      }
    }
    ip := peerIp;
  }

  /** Two headers with the same answers give the same login. */
  lemma SameAnswerSameLogin(net: Network, trustHeaders: bool, peer: Option<Addr>, header: string, other: string, peerIp: string, a: string, b: string)
    requires forall ip :: IsAnswer(net, Split(header, ','), ip) <==> IsAnswer(net, Split(other, ','), ip)
    requires IsLogin(net, trustHeaders, peer, header, peerIp, a) && IsLogin(net, trustHeaders, peer, other, peerIp, b)
    ensures a == b
  {
    if HeaderCounts(net, trustHeaders, peer) {
      var x, y := if a != "" && IsAnswer(net, Split(header, ','), a) then a else "", if b != "" && IsAnswer(net, Split(header, ','), b) then b else "";
      AnswerIsUnique(net, Split(header, ','), x, y);
    }
  }

  /** The address of a login does not depend on what a client puts in front of a decided header; in front of an
      undecided one it is what the prefix alone would give. */
  lemma LoginIgnoresPrefix(net: Network, trustHeaders: bool, peer: Option<Addr>, forged: string, header: string, peerIp: string,
                           a: string, b: string)
    requires IsLogin(net, trustHeaders, peer, if Decided(net, header) then header else forged, peerIp, a)
    requires IsLogin(net, trustHeaders, peer, forged + "," + header, peerIp, b)
    ensures a == b
  {
    var same := if Decided(net, header) then header else forged;
    forall ip ensures IsAnswer(net, Split(same, ','), ip) <==> IsAnswer(net, Split(forged + "," + header, ','), ip) {
      if Decided(net, header) {
        PrefixIsIgnored(net, forged, header, ip);
      } else {
        PrefixDecides(net, forged, header, ip);
      }
    }
    SameAnswerSameLogin(net, trustHeaders, peer, same, forged + "," + header, peerIp, a, b);
  }
}
