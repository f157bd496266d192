/** When a whole run is served: exactly if no window of it asks for more than the buckets hold and earn. */
module RateConformance {
  import opened Numbers
  import opened RateLimiter

  /** How many of the requests are one peer's. */
  function CountOf<P(==)>(requests: seq<Request<P>>, peer: P): nat {
    if requests == [] then 0
    else CountOf(requests[..|requests| - 1], peer) + if requests[|requests| - 1].peer == peer then 1 else 0
  }

  ghost function After<P(!new)>(policy: Policy, start: real, requests: seq<Request<P>>, n: nat): State<P>
    requires n <= |requests|
  {
    Run(policy, Initial<P>(policy, start), requests[..n])
  }

  /** No window asks for more than the burst and what its length earns, in aggregate or of any peer. */
  ghost predicate Conforms<P(!new)>(policy: Policy, requests: seq<Request<P>>) {
    forall i, j, peer :: 0 <= i <= j < |requests| ==> WindowFits(policy, requests, i, j, peer)
  }

  ghost predicate WindowFits<P(!new)>(policy: Policy, requests: seq<Request<P>>, i: nat, j: nat, peer: P)
    requires i <= j < |requests|
  {
    var length := requests[j].now - requests[i].now;
    && (j + 1 - i) as real <= policy.totalBurst + Times(length, policy.totalRate)
    && CountOf(requests[i..j + 1], peer) as real <= policy.peerBurst + Times(length, policy.peerRate)
  }

  /** Every request finds its peer in the table, or a place beside those short of a full bucket. */
  ghost predicate Roomy<P(!new)>(policy: Policy, start: real, requests: seq<Request<P>>) {
    forall n :: 0 <= n < |requests| ==> PlaceFor(policy, After(policy, start, requests, n), requests[n])
  }

  ghost predicate PlaceFor<P(!new)>(policy: Policy, s: State<P>, r: Request<P>) {
    r.peer in s.peers || |Short(policy, s, r.now)| < policy.maxPeers
  }

  ghost predicate Served<P(!new)>(policy: Policy, start: real, requests: seq<Request<P>>, n: nat)
    requires n <= |requests|
  {
    forall k :: 0 <= k < n ==> Allowed(policy, After(policy, start, requests, k), requests[k])
  }

  // ---- what a run that was served so far leaves ----

  lemma AfterNext<P(!new)>(policy: Policy, start: real, requests: seq<Request<P>>, n: nat)
    requires n < |requests|
    ensures After(policy, start, requests, n + 1) == Next(policy, After(policy, start, requests, n), requests[n])
  {
    hide Next, Initial;
    assert requests[..n + 1][..n] == requests[..n];
  }

  lemma AfterGood<P(!new)>(policy: Policy, start: real, requests: seq<Request<P>>, n: nat, peer: P, now: real)
    requires Sound(policy) && Ordered(requests, start) && n <= |requests| && start <= now
    requires n > 0 ==> requests[n - 1].now <= now
    ensures Good(policy, After(policy, start, requests, n), now)
  {
    hide Earned, Run, Admitted, AdmittedFor, Good, Initial;
    InitialGood<P>(policy, start);
    Conservation(policy, Initial<P>(policy, start), requests[..n], start, peer);
    GoodLater(policy, After(policy, start, requests, n), LastTime(requests[..n], start), now);
  }

  /** The aggregate level at `now` is the burst, or the burst less the requests since some request plus the refill since it. */
  lemma {:induction false} TotalIs<P(!new)>(policy: Policy, start: real, requests: seq<Request<P>>, n: nat, now: real) returns (i: nat)
    requires Sound(policy) && Ordered(requests, start) && n <= |requests| && Served(policy, start, requests, n)
    requires start <= now && (n > 0 ==> requests[n - 1].now <= now)
    ensures i <= n
    ensures TotalLevel(policy, After(policy, start, requests, n), now) == policy.totalBurst +
      if i == n then 0.0 else Earned(now - requests[i].now, policy.totalRate) - (n - i) as real
  {
    hide Earned, After, Next, Allowed, PeerLevel, Good;
    if n == 0 {
      i := 0;
      StartsFull(policy, start, requests, now);
    } else {
      var r, before := requests[n - 1], After(policy, start, requests, n - 1);
      i := TotalIs(policy, start, requests, n - 1, r.now);
      AfterNext(policy, start, requests, n - 1);
      AfterGood(policy, start, requests, n - 1, r.peer, r.now);
      RequestMeaning(policy, before, r, r.peer, now);
      if TotalLevel(policy, before, r.now) - 1.0 + Earned(now - r.now, policy.totalRate) > policy.totalBurst {
        i := n;
      } else if i < n - 1 {
        EarnedAdds(r.now - requests[i].now, now - r.now, policy.totalRate);
        assert (r.now - requests[i].now) + (now - r.now) == now - requests[i].now;
      }
    }
  }

  lemma StartsFull<P(!new)>(policy: Policy, start: real, requests: seq<Request<P>>, now: real)
    requires Sound(policy) && start <= now
    ensures TotalLevel(policy, After(policy, start, requests, 0), now) == policy.totalBurst
    ensures After(policy, start, requests, 0).peers == map[]
  {
    hide Earned;
    EarnedAdds(0.0, now - start, policy.totalRate);
  }

  /** The same of a peer's level, counting its own requests. */
  lemma {:induction false} PeerIs<P(!new)>(policy: Policy, start: real, requests: seq<Request<P>>, n: nat, peer: P, now: real)
    returns (i: nat)
    requires Sound(policy) && Ordered(requests, start) && n <= |requests| && Served(policy, start, requests, n)
    requires start <= now && (n > 0 ==> requests[n - 1].now <= now)
    ensures i <= n
    ensures PeerLevel(policy, After(policy, start, requests, n), peer, now) == policy.peerBurst +
      if i == n then 0.0 else Earned(now - requests[i].now, policy.peerRate) - CountOf(requests[i..n], peer) as real
  {
    hide Earned, After, Next, Allowed, TotalLevel, Good, CountOf;
    if n == 0 {
      i := 0;
      StartsFull(policy, start, requests, now);
    } else {
      var r, before := requests[n - 1], After(policy, start, requests, n - 1);
      AfterNext(policy, start, requests, n - 1);
      AfterGood(policy, start, requests, n - 1, r.peer, r.now);
      RequestMeaning(policy, before, r, peer, now);
      i := PeerIs(policy, start, requests, n - 1, peer, if peer == r.peer then r.now else now);
      if i < n { CountNext(requests, i, n, peer); }
      if peer != r.peer {
        if i == n - 1 { i := n; }
      } else if PeerLevel(policy, before, peer, r.now) - 1.0 + Earned(now - r.now, policy.peerRate) > policy.peerBurst {
        i := n;
      } else if i < n - 1 {
        EarnedAdds(r.now - requests[i].now, now - r.now, policy.peerRate);
        assert (r.now - requests[i].now) + (now - r.now) == now - requests[i].now;
      }
    }
  }

  lemma CountNext<P(!new)>(requests: seq<Request<P>>, i: nat, n: nat, peer: P)
    requires i < n <= |requests|
    ensures CountOf(requests[i..n], peer) == CountOf(requests[i..n - 1], peer) + if requests[n - 1].peer == peer then 1 else 0
    ensures i == n - 1 ==> CountOf(requests[i..n - 1], peer) == 0
  {
    assert requests[i..n][..n - 1 - i] == requests[i..n - 1];
  }

  // ---- exactly when all is served ----

  /** In a run that conforms and finds room, whatever was served so far, the next request is. */
  lemma NextServed<P(!new)>(policy: Policy, start: real, requests: seq<Request<P>>, n: nat)
    requires Sound(policy) && Ordered(requests, start) && n < |requests| && Served(policy, start, requests, n)
    requires Conforms(policy, requests) && Roomy(policy, start, requests)
    ensures Allowed(policy, After(policy, start, requests, n), requests[n])
  {
    hide Earned, After, Allowed, TotalLevel, PeerLevel, CountOf, Short;
    var r := requests[n];
    ServedExactly(policy, After(policy, start, requests, n), r);
    assert PlaceFor(policy, After(policy, start, requests, n), r);
    var i := TotalIs(policy, start, requests, n, r.now);
    WindowEarns(policy, requests, i, n, r.peer);
    var j := PeerIs(policy, start, requests, n, r.peer, r.now);
    WindowEarns(policy, requests, j, n, r.peer);
  }

  /** What a window that ends with the n-th request leaves for it. */
  lemma WindowEarns<P(!new)>(policy: Policy, requests: seq<Request<P>>, i: nat, n: nat, peer: P)
    requires Conforms(policy, requests) && i <= n < |requests| && requests[i].now <= requests[n].now && requests[n].peer == peer
    ensures var elapsed := requests[n].now - requests[i].now;
      if i == n then 1.0 <= policy.totalBurst && 1.0 <= policy.peerBurst
      else
        && 1.0 <= policy.totalBurst + Earned(elapsed, policy.totalRate) - (n - i) as real
        && 1.0 <= policy.peerBurst + Earned(elapsed, policy.peerRate) - CountOf(requests[i..n], peer) as real
  {
    hide Earned, CountOf, Times;
    var elapsed := requests[n].now - requests[i].now;
    assert WindowFits(policy, requests, i, n, peer);
    EarnedTimes(elapsed, policy.totalRate);
    EarnedTimes(elapsed, policy.peerRate);
    CountNext(requests, i, n + 1, peer);
    TimesUnits(policy.totalRate);
    TimesUnits(policy.peerRate);
  }

  lemma EarnedTimes(elapsed: real, rate: real)
    requires elapsed >= 0.0
    ensures Earned(elapsed, rate) == Times(elapsed, rate)
  {
  }

  lemma {:induction false} ConformingServed<P(!new)>(policy: Policy, start: real, requests: seq<Request<P>>, n: nat)
    requires Sound(policy) && Ordered(requests, start) && n <= |requests|
    requires Conforms(policy, requests) && Roomy(policy, start, requests)
    ensures Served(policy, start, requests, n)
  {
    hide Conforms, Roomy, Allowed, After;
    if n > 0 {
      ConformingServed(policy, start, requests, n - 1);
      NextServed(policy, start, requests, n - 1);
    }
  }

  lemma {:induction false} AdmittedIsServed<P(!new)>(policy: Policy, start: real, requests: seq<Request<P>>, n: nat)
    requires n <= |requests|
    ensures var admitted := Admitted(policy, Initial<P>(policy, start), requests[..n]);
      admitted <= n && (admitted == n <==> Served(policy, start, requests, n))
  {
    hide Allowed, Run, Initial;
    if n > 0 {
      AdmittedIsServed(policy, start, requests, n - 1);
      assert requests[..n][..n - 1] == requests[..n - 1];
    }
  }

  /** In a window of a served run all are admitted. */
  lemma {:induction false} WindowServed<P(!new)>(policy: Policy, start: real, requests: seq<Request<P>>, i: nat, j: nat, peer: P)
    requires i <= j <= |requests| && Served(policy, start, requests, |requests|)
    ensures var s := After(policy, start, requests, i);
      && Run(policy, s, requests[i..j]) == After(policy, start, requests, j)
      && Admitted(policy, s, requests[i..j]) == j - i
      && AdmittedFor(policy, s, requests[i..j], peer) == CountOf(requests[i..j], peer)
  {
    hide Allowed, Next, Initial, After;
    if i < j {
      WindowServed(policy, start, requests, i, j - 1, peer);
      AfterNext(policy, start, requests, j - 1);
      assert requests[i..j][..j - 1 - i] == requests[i..j - 1];
    }
  }

  lemma ServedFits<P(!new)>(policy: Policy, start: real, requests: seq<Request<P>>, i: nat, j: nat, peer: P)
    requires Sound(policy) && Ordered(requests, start) && i <= j < |requests| && Served(policy, start, requests, |requests|)
    ensures WindowFits(policy, requests, i, j, peer)
  {
    hide Served, Run, Admitted, AdmittedFor, Ordered, Initial, CountOf;
    WindowServed(policy, start, requests, i, j + 1, peer);
    WindowBound(policy, start, requests, i, j + 1, peer);
  }

  /**
   * A run with a clock that never goes back is admitted in full if and only if every window of it keeps to burst plus
   * rate times its length, in aggregate and for each peer, and every request finds a place in the table.
   */
  lemma AllServedExactly<P(!new)>(policy: Policy, start: real, requests: seq<Request<P>>)
    requires Sound(policy) && Ordered(requests, start)
    ensures Admitted(policy, Initial<P>(policy, start), requests) == |requests|
       <==> Conforms(policy, requests) && Roomy(policy, start, requests)
  {
    hide WindowFits, Allowed, After, Ordered, Admitted, Initial, Short;
    assert requests[..|requests|] == requests;
    AdmittedIsServed(policy, start, requests, |requests|);
    if Conforms(policy, requests) && Roomy(policy, start, requests) {
      ConformingServed(policy, start, requests, |requests|);
    }
    if Served(policy, start, requests, |requests|) {
      forall i, j, peer | 0 <= i <= j < |requests| ensures WindowFits(policy, requests, i, j, peer) {
        ServedFits(policy, start, requests, i, j, peer);
      }
      forall n | 0 <= n < |requests| ensures PlaceFor(policy, After(policy, start, requests, n), requests[n]) {
        ServedExactly(policy, After(policy, start, requests, n), requests[n]);
      }
    }
  }

  // ---- room ----

  ghost function Peers<P(!new)>(requests: seq<Request<P>>): set<P> { set r | r in requests :: r.peer }

  lemma {:induction false} KnownPeers<P(!new)>(policy: Policy, start: real, requests: seq<Request<P>>, n: nat)
    requires n <= |requests|
    ensures After(policy, start, requests, n).peers.Keys <= Peers(requests[..n])
  {
    hide After, Allowed, PeerLevel, TotalLevel, Depleted, HasRoom;
    if n == 0 {
      assert requests[..0] == [];
      NobodyKnown(policy, start, requests);
    } else {
      KnownPeers(policy, start, requests, n - 1);
      AfterNext(policy, start, requests, n - 1);
      KeptKnown(policy, After(policy, start, requests, n - 1), requests[n - 1]);
      assert requests[..n] == requests[..n - 1] + [requests[n - 1]];
    }
  }

  lemma NobodyKnown<P(!new)>(policy: Policy, start: real, requests: seq<Request<P>>)
    ensures After(policy, start, requests, 0).peers == map[]
  {
  }

  lemma KeptKnown<P(!new)>(policy: Policy, s: State<P>, r: Request<P>)
    ensures Next(policy, s, r).peers.Keys <= s.peers.Keys + {r.peer}
  {
  }

  /** No more peers than places, and every request finds one. */
  lemma FewPeersRoomy<P(!new)>(policy: Policy, start: real, requests: seq<Request<P>>)
    requires |Peers(requests)| <= policy.maxPeers
    ensures Roomy(policy, start, requests)
  {
    hide After, PeerLevel;
    forall n | 0 <= n < |requests| ensures PlaceFor(policy, After(policy, start, requests, n), requests[n]) {
      var s, r := After(policy, start, requests, n), requests[n];
      KnownPeers(policy, start, requests, n);
      if r.peer !in s.peers {
        assert Peers(requests[..n]) <= Peers(requests);
        Fewer(Short(policy, s, r.now), Peers(requests), r.peer);
      }
    }
  }

  lemma Fewer<P>(some: set<P>, all: set<P>, other: P)
    requires some <= all && other in all && other !in some
    ensures |some| < |all|
  {
    Subset(some + {other}, all);
  }

  lemma Subset<P>(some: set<P>, all: set<P>)
    requires some <= all
    ensures |some| <= |all|
  {
    if p :| p in some { Subset(some - {p}, all - {p}); }
  }
}
