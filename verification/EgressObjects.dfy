/** The proxy's objects: its cache of failed hosts in two structures, and the work of one tunnel. */
module EgressObjects {
  import opened Wrappers
  import opened Egress

  type Host = string
  type Byte = b: int | 0 <= b < 256

  predicate Distinct(order: seq<Host>) {
    forall i, j :: 0 <= i < j < |order| ==> order[i] != order[j]
  }

  /** negativeCache: hosts whose name or connection failed, the oldest dropped past `max`. */
  class NegativeCache {
    const ttl: int
    const max: nat
    var until: map<Host, int>
    var order: seq<Host>
    /** When each host last failed. */
    ghost var failed: map<Host, int>

    /** The two structures agree, and each entry lasts from the host's last failure. */
    ghost predicate Valid()
      reads this
    {
      Agree() && Lasting() && |order| <= max
    }

    ghost predicate Agree()
      reads `until, `order
    {
      Distinct(order) && forall h :: h in order <==> h in until
    }

    ghost predicate Lasting()
      reads `until, `failed
    {
      forall h :: h in until ==> h in failed && until[h] == failed[h] + ttl
    }

    constructor (ttl: int, max: nat)
      ensures Valid() && this.ttl == ttl && this.max == max && order == [] && failed == map[]
    {
      this.ttl, this.max := ttl, max;
      until, order, failed := map[], [], map[];
    }

    /** True only within the lifetime of the host's last failure. */
    method Has(host: Host, now: int) returns (yes: bool)
      requires Valid()
      ensures yes <==> host in order && now < failed[host] + ttl
    {
      yes := host in until && now < until[host];
    }

    method Add(host: Host, now: int)
      requires Valid()
      modifies this
      ensures Valid() && failed == old(failed)[host := now]
      ensures var longer := if host in old(order) then old(order) else old(order) + [host];
        order == if |longer| > max then longer[|longer| - max..] else longer
    {
      if host !in until {
        AddedLast(order, host);
        order := order + [host];
      }
      until := until[host := now + ttl];
      failed := failed[host := now];
      Shorten();
    }

    method Shorten()
      requires Agree() && Lasting()
      modifies this`until, this`order
      ensures Valid() && order == if |old(order)| > max then old(order)[|old(order)| - max..] else old(order)
    {
      ghost var longer := order;
      while |order| > max
        invariant |order| <= |longer| && order == longer[|longer| - |order|..]
        invariant |longer| > max ==> |order| >= max
        invariant |longer| <= max ==> order == longer
        invariant Agree() && Lasting()
        decreases |order|
      {
        DropOldest();
      }
    }

    method DropOldest()
      requires Agree() && Lasting() && order != []
      modifies this`until, this`order
      ensures Agree() && Lasting() && order == old(order)[1..]
    {
      WithoutOldest(order);
      until := until - {order[0]};
      order := order[1..];
    }
  }

  lemma AddedLast(order: seq<Host>, host: Host)
    requires Distinct(order) && host !in order
    ensures Distinct(order + [host]) && forall h :: h in order + [host] <==> h in order || h == host
  {
  }

  lemma WithoutOldest(order: seq<Host>)
    requires Distinct(order) && order != []
    ensures Distinct(order[1..]) && forall h :: h in order[1..] <==> h in order && h != order[0]
  {
    assert order == [order[0]] + order[1..];
  }

  /** An address a host resolved to: whether it is public, or one of the deployment's own. */
  datatype Addr = Addr(ip: nat, public: bool, own: bool) {
    predicate Allowed()
      ensures Allowed() <==> public && !own
    {
      public && !own
    }
  }

  ghost predicate AllAllowed(addrs: seq<Addr>) {
    forall i :: 0 <= i < |addrs| ==> addrs[i].public && !addrs[i].own
  }

  /** The first address that answers does so before the time for all is over. */
  ghost predicate Answered(reached: seq<bool>, expired: seq<bool>)
    requires |reached| == |expired|
  {
    exists i :: 0 <= i < |reached| && reached[i] && forall j :: 0 <= j < i ==> !expired[j]
  }

  datatype Code = NoCode | Busy | DnsFailed | PrivateAddress | ConnectFailed | Ok | LimitReached

  class Proxy {
    var tunnels: nat
    const negative: NegativeCache

    constructor ()
      ensures tunnels == 0 && negative.Valid() && fresh(negative)
      ensures negative.ttl == 60 && negative.max == 2000 && negative.order == []
    {
      tunnels := 0;
      negative := new NegativeCache(60, 2000);
    }

    /** The end of open: a place, if one is free. */
    method TakePlace() returns (taken: bool)
      modifies this`tunnels
      ensures taken == (old(tunnels) < 4)
      ensures tunnels == if taken then old(tunnels) + 1 else old(tunnels)
    {
      taken := tunnels < TUNNELS;
      if taken {
        tunnels := tunnels + 1;
      }
    }

    /** connect: addrs is what the host resolved to, none if that failed; reached and expired say of
        each dial whether it succeeded, and whether the time for all of them was over after it. Holding
        a place, it keeps it only if it connected, to the first address in order that answered; and
        it dials nothing unless every address may be dialed. */
    method Connect(host: Host, addrs: seq<Addr>, reached: seq<bool>, expired: seq<bool>, now: int)
      returns (upstream: Option<nat>, code: Code, dialed: nat)
      requires negative.Valid() && tunnels > 0 && |reached| == |expired| == |addrs|
      modifies this`tunnels, negative
      ensures negative.Valid()
      ensures upstream.Some? <==> code == NoCode
      ensures tunnels == if code == NoCode then old(tunnels) else old(tunnels) - 1
      ensures code in {NoCode, DnsFailed, PrivateAddress, ConnectFailed}
      ensures code == DnsFailed <==> addrs == []
      ensures code == PrivateAddress <==> !AllAllowed(addrs)
      ensures code == NoCode <==> AllAllowed(addrs) && Answered(reached, expired)
      ensures dialed <= |addrs| && (dialed > 0 ==> AllAllowed(addrs))
      ensures upstream.Some? ==> upstream.value + 1 == dialed && reached[upstream.value]
      ensures forall i :: 0 <= i < dialed - 1 ==> !reached[i] && !expired[i]
      ensures code == ConnectFailed ==> 0 < dialed && !reached[dialed - 1] && (dialed == |addrs| || expired[dialed - 1])
      ensures negative.failed ==
        if code == DnsFailed || code == ConnectFailed then old(negative.failed)[host := now] else old(negative.failed)
    {
      upstream, dialed := None, 0;
      if addrs == [] {
        negative.Add(host, now);
        tunnels := tunnels - 1;
        return None, DnsFailed, 0;
      }
      var i := 0;
      while i < |addrs|
        invariant 0 <= i <= |addrs|
        invariant forall j :: 0 <= j < i ==> addrs[j].Allowed()
      {
        if !addrs[i].Allowed() {
          tunnels := tunnels - 1;
          return None, PrivateAddress, 0;
        }
        i := i + 1;
      }
      while dialed < |addrs|
        invariant 0 <= dialed <= |addrs|
        invariant forall j :: 0 <= j < dialed ==> !reached[j] && !expired[j]
      {
        var at := dialed;
        dialed := dialed + 1;
        if reached[at] {
          return Some(at), NoCode, dialed;
        }
        if expired[at] {
          break;
        }
      }
      negative.Add(host, now);
      tunnels := tunnels - 1;
      return None, ConnectFailed, dialed;
    }

    /** Serve, past the checks that need no place: whatever happens, the place is given back. */
    method Serve(host: Host, addrs: seq<Addr>, reached: seq<bool>, expired: seq<bool>, now: int, greeted: bool, limited: bool)
      returns (code: Code)
      requires negative.Valid() && |reached| == |expired| == |addrs| && tunnels <= TUNNELS
      modifies this`tunnels, negative
      ensures negative.Valid() && tunnels == old(tunnels)
      ensures code == Busy <==> old(tunnels) == 4
      ensures code == DnsFailed <==> old(tunnels) < 4 && addrs == []
      ensures code == PrivateAddress <==> old(tunnels) < 4 && !AllAllowed(addrs)
      ensures code == ConnectFailed <==>
        old(tunnels) < 4 && addrs != [] && AllAllowed(addrs) && !(greeted && Answered(reached, expired))
      ensures code == LimitReached <==> old(tunnels) < 4 && AllAllowed(addrs) && Answered(reached, expired) && greeted && limited
      ensures code == Ok <==> old(tunnels) < 4 && AllAllowed(addrs) && Answered(reached, expired) && greeted && !limited
      ensures negative.failed ==
        if old(tunnels) < 4 && AllAllowed(addrs) && !Answered(reached, expired) then old(negative.failed)[host := now]
        else old(negative.failed)
    {
      var taken := TakePlace();
      if !taken {
        return Busy;
      }
      var upstream, dialed;
      upstream, code, dialed := Connect(host, addrs, reached, expired, now);
      if code != NoCode {
        return code;
      }
      code := if !greeted then ConnectFailed else if limited then LimitReached else Ok;
      tunnels := tunnels - 1;
    }
  }

  /** copyCapped: the bytes that came with the request, then the source until it ends or the cap is
      spent, in pieces of any size. room: what the receiver takes before it fails. The source ends or
      breaks after its bytes, which makes no difference. What is sent is a beginning of the stream,
      never past the cap, and `over` says exactly that the source had more than the cap for a receiver
      that took it all. */
  method CopyCapped(cap: nat, already: seq<Byte>, source: seq<Byte>, room: nat) returns (sent: seq<Byte>, over: bool)
    ensures |sent| <= |already| + |source| && sent == (already + source)[..|sent|]
    ensures |already| > cap ==> sent == []
    ensures |already| <= cap ==> |sent| <= cap && |sent| <= room && (|sent| == cap || |sent| == room || |sent| == |already| + |source|)
    ensures over <==> |already| > cap || (cap <= room && |already| + |source| > cap)
  {
    sent := [];
    var budget: int := cap;
    if |already| > budget {
      assert sent == (already + source)[..0];
      return sent, true;
    }
    if room < |already| {
      sent := already[..room];
      assert sent == (already + source)[..room];
      return sent, false;
    }
    sent := already;
    budget := budget - |already|;
    var read := 0;
    while read < |source| && read < budget
      invariant 0 <= read <= |source| && read <= budget
      invariant |sent| == |already| + read <= room && sent == (already + source)[..|sent|]
    {
      var piece: nat :| 0 < piece && read + piece <= |source| && read + piece <= budget;
      if room < |sent| + piece {
        sent := (already + source)[..room];
        return sent, false;
      }
      sent := sent + source[read..read + piece];
      read := read + piece;
    }
    if read < budget {
      return sent, false;
    }
    over := read < |source|;
  }
}
