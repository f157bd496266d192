/** Token buckets per peer and in aggregate, over a bounded table of peers. */
module RateLimiter {
  import opened Numbers

  datatype Bucket = Bucket(tokens: real, stamp: real)

  datatype Policy = Policy(peerRate: real, peerBurst: real, totalRate: real, totalBurst: real, maxPeers: nat)

  const DEFAULT_POLICY := Policy(100.0, 200.0, 200.0, 400.0, 1024)

  datatype State<P> = State(peers: map<P, Bucket>, total: Bucket)

  datatype Request<P> = Request(peer: P, now: real)

  /** Tokens earned over an interval; a clock that went back earns nothing. */
  function Earned(elapsed: real, rate: real): real { RealMax(0.0, elapsed) * rate }

  function Refilled(b: Bucket, rate: real, now: real): real { b.tokens + Earned(now - b.stamp, rate) }

  /** The tokens a bucket is worth at `now`. */
  function Level(b: Bucket, rate: real, burst: real, now: real): real { RealMin(burst, Refilled(b, rate, now)) }

  /** A peer's effective level: an absent peer has a full bucket. */
  function PeerLevel<P>(policy: Policy, s: State<P>, peer: P, now: real): real {
    if peer in s.peers then Level(s.peers[peer], policy.peerRate, policy.peerBurst, now) else policy.peerBurst
  }

  function TotalLevel<P>(policy: Policy, s: State<P>, now: real): real {
    Level(s.total, policy.totalRate, policy.totalBurst, now)
  }

  ghost predicate Sound(policy: Policy) {
    policy.peerRate >= 0.0 && policy.totalRate >= 0.0 && policy.peerBurst >= 0.0 && policy.totalBurst >= 0.0
  }

  /** Reachable at clock value `now`: no bucket overdrawn, overfull or from the future, and the table within its bound. */
  ghost predicate Good<P>(policy: Policy, s: State<P>, now: real) {
    && (forall p :: p in s.peers ==> 0.0 <= s.peers[p].tokens <= policy.peerBurst && s.peers[p].stamp <= now)
    && 0.0 <= s.total.tokens <= policy.totalBurst && s.total.stamp <= now
    && |s.peers| <= policy.maxPeers
  }

  function Initial<P>(policy: Policy, now: real): State<P> { State(map[], Bucket(policy.totalBurst, now)) }

  /** The buckets that have not refilled completely. */
  function Depleted<P>(policy: Policy, peers: map<P, Bucket>, now: real): map<P, Bucket> {
    map p | p in peers && Refilled(peers[p], policy.peerRate, now) < policy.peerBurst :: peers[p]
  }

  predicate NeedsEviction<P>(policy: Policy, s: State<P>, peer: P) {
    peer !in s.peers && |s.peers| >= policy.maxPeers
  }

  function Kept<P>(policy: Policy, s: State<P>, r: Request<P>): map<P, Bucket> {
    if NeedsEviction(policy, s, r.peer) then Depleted(policy, s.peers, r.now) else s.peers
  }

  /** There is, or eviction makes, a place in the table for the peer. */
  predicate HasRoom<P>(policy: Policy, s: State<P>, r: Request<P>) {
    NeedsEviction(policy, s, r.peer) ==> |Depleted(policy, s.peers, r.now)| < policy.maxPeers
  }

  predicate Allowed<P>(policy: Policy, s: State<P>, r: Request<P>) {
    HasRoom(policy, s, r) && TotalLevel(policy, s, r.now) >= 1.0 && PeerLevel(policy, s, r.peer, r.now) >= 1.0
  }

  /** The state after one request. */
  function Next<P>(policy: Policy, s: State<P>, r: Request<P>): State<P> {
    var total := TotalLevel(policy, s, r.now);
    var kept := Kept(policy, s, r);
    if !HasRoom(policy, s, r) then State(kept, Bucket(total, r.now))
    else
      var available := PeerLevel(policy, s, r.peer, r.now);
      var spent := if Allowed(policy, s, r) then 1.0 else 0.0;
      State(kept[r.peer := Bucket(available - spent, r.now)], Bucket(total - spent, r.now))
  }

  class RequestRateLimiter<P(==)> {
    const policy: Policy
    var peers: map<P, Bucket>
    var total: Bucket

    ghost function Contents(): State<P> reads this { State(peers, total) }

    constructor (policy: Policy, now: real)
      ensures this.policy == policy && Contents() == Initial(policy, now)
    {
      this.policy, this.peers, this.total := policy, map[], Bucket(policy.totalBurst, now);
    }

    /** `now` is the clock reading; the limiter itself owns no clock. */
    method Allow(peer: P, now: real) returns (allowed: bool)
      modifies this
      ensures allowed == Allowed(policy, old(Contents()), Request(peer, now))
      ensures Contents() == Next(policy, old(Contents()), Request(peer, now))
    {
      hide Earned;
      NothingEarned(policy.peerRate);
      var refilled := RealMin(policy.totalBurst, total.tokens + Earned(now - total.stamp, policy.totalRate));
      total := Bucket(refilled, now);
      if peer !in peers && |peers| >= policy.maxPeers {
        // Only fully refilled identities are forgotten.
        peers := map p | p in peers && Refilled(peers[p], policy.peerRate, now) < policy.peerBurst :: peers[p];
        assert peers == Depleted(policy, old(peers), now);
        if |peers| >= policy.maxPeers {
          return false;
        }
      }
      var bucket := if peer in peers then peers[peer] else Bucket(policy.peerBurst, now);
      var available := RealMin(policy.peerBurst, bucket.tokens + Earned(now - bucket.stamp, policy.peerRate));
      if refilled < 1.0 || available < 1.0 {
        peers := peers[peer := Bucket(available, now)];
        return false;
      }
      total := Bucket(refilled - 1.0, now);
      peers := peers[peer := Bucket(available - 1.0, now)];
      return true;
    }
  }

  lemma NothingEarned(rate: real)
    ensures Earned(0.0, rate) == 0.0
  {
  }

  lemma EarnedAdds(x: real, y: real, rate: real)
    requires x >= 0.0 && y >= 0.0 && rate >= 0.0
    ensures Earned(x + y, rate) == Earned(x, rate) + Earned(y, rate)
    ensures Earned(0.0, rate) == 0.0 && Earned(x, rate) >= 0.0 && Earned(y, rate) >= 0.0
  {
  }

  lemma RefillAdds(b: Bucket, rate: real, now: real, later: real)
    requires b.stamp <= now <= later && rate >= 0.0
    ensures Refilled(b, rate, later) == Refilled(b, rate, now) + Earned(later - now, rate)
    ensures Earned(0.0, rate) == 0.0 && Earned(now - b.stamp, rate) >= 0.0 && Earned(later - now, rate) >= 0.0
  {
    hide Earned;
    EarnedAdds(now - b.stamp, later - now, rate);
    assert (now - b.stamp) + (later - now) == later - b.stamp;
  }

  /** Restamping a bucket at its current level, with or without spending, loses no later refill. */
  lemma Restamp(b: Bucket, rate: real, burst: real, spent: real, now: real, later: real)
    requires b.stamp <= now <= later && rate >= 0.0
    ensures Level(Bucket(Level(b, rate, burst, now) - spent, now), rate, burst, later)
         == RealMin(burst, Level(b, rate, burst, now) - spent + Earned(later - now, rate))
    ensures Level(b, rate, burst, later) == RealMin(burst, Level(b, rate, burst, now) + Earned(later - now, rate))
  {
    hide Earned;
    RefillAdds(b, rate, now, later);
  }

  lemma FullStaysFull(b: Bucket, rate: real, burst: real, now: real, later: real)
    requires b.stamp <= now <= later && rate >= 0.0 && Refilled(b, rate, now) >= burst
    ensures Level(b, rate, burst, later) == burst
  {
    hide Earned;
    RefillAdds(b, rate, now, later);
  }

  /** What eviction removes had refilled: no peer's level changes, now or later, and the table shrinks or stays. */
  lemma EvictionInvisible<P>(policy: Policy, s: State<P>, r: Request<P>, peer: P, later: real)
    requires Sound(policy) && Good(policy, s, r.now) && r.now <= later
    ensures PeerLevel(policy, State(Kept(policy, s, r), s.total), peer, later) == PeerLevel(policy, s, peer, later)
  {
    hide Earned;
    var kept := Kept(policy, s, r);
    if peer in s.peers && peer !in kept {
      FullStaysFull(s.peers[peer], policy.peerRate, policy.peerBurst, r.now, later);
    }
  }

  /** Who in the table is short of a full bucket. */
  ghost function Short<P>(policy: Policy, s: State<P>, now: real): set<P> {
    set p | p in s.peers && PeerLevel(policy, s, p, now) < policy.peerBurst
  }

  /**
   * Who is served, in terms of what every peer's bucket is worth: both buckets hold a token, and the peer is known or
   * those known with less than a full bucket leave a place.
   */
  lemma ServedExactly<P>(policy: Policy, s: State<P>, r: Request<P>)
    ensures Allowed(policy, s, r) <==>
      && TotalLevel(policy, s, r.now) >= 1.0 && PeerLevel(policy, s, r.peer, r.now) >= 1.0
      && (r.peer in s.peers || |Short(policy, s, r.now)| < policy.maxPeers)
  {
    hide Earned, TotalLevel;
    var depleted := Depleted(policy, s.peers, r.now);
    assert depleted.Keys == Short(policy, s, r.now);
    SubmapSize(depleted, s.peers);
  }

  lemma SubmapSize<P>(small: map<P, Bucket>, large: map<P, Bucket>)
    requires small.Keys <= large.Keys
    ensures |small| <= |large|
    decreases |small|
  {
    if p :| p in small {
      SubmapSize(small - {p}, large - {p});
    }
  }

  lemma TableBounded<P>(policy: Policy, s: State<P>, r: Request<P>)
    requires Good(policy, s, r.now)
    ensures |Next(policy, s, r).peers| <= policy.maxPeers
  {
    var kept := Kept(policy, s, r);
    SubmapSize(kept, s.peers);
    if HasRoom(policy, s, r) {
      var b := Next(policy, s, r).peers[r.peer];
      assert kept[r.peer := b].Keys == kept.Keys + {r.peer};
    }
  }

  /** Buckets stay sound: never negative, never over their burst, never stamped in the future. */
  lemma NextGood<P>(policy: Policy, s: State<P>, r: Request<P>)
    requires Sound(policy) && Good(policy, s, r.now)
    ensures Good(policy, Next(policy, s, r), r.now)
  {
    TableBounded(policy, s, r);
    LevelNonNegative(policy, s, r.now, r.peer);
  }

  /**
   * The meaning of one request, as if every peer had its own bucket for ever: only an allowed
   * request spends, it spends one token of its peer and one of the aggregate, and no other level
   * moves, whatever the table evicts.
   */
  lemma RequestMeaning<P>(policy: Policy, s: State<P>, r: Request<P>, peer: P, later: real)
    requires Sound(policy) && Good(policy, s, r.now) && r.now <= later
    ensures var t := Next(policy, s, r); var spent := if Allowed(policy, s, r) then 1.0 else 0.0;
      && TotalLevel(policy, t, later)
         == RealMin(policy.totalBurst, TotalLevel(policy, s, r.now) - spent + Earned(later - r.now, policy.totalRate))
      && PeerLevel(policy, t, peer, later)
         == if peer != r.peer then PeerLevel(policy, s, peer, later)
            else RealMin(policy.peerBurst, PeerLevel(policy, s, peer, r.now) - spent + Earned(later - r.now, policy.peerRate))
  {
    hide Earned;
    var spent := if Allowed(policy, s, r) then 1.0 else 0.0;
    Restamp(s.total, policy.totalRate, policy.totalBurst, spent, r.now, later);
    EvictionInvisible(policy, s, r, peer, later);
    if peer == r.peer {
      OwnLevel(policy, s, r, later);
    }
  }

  lemma OwnLevel<P>(policy: Policy, s: State<P>, r: Request<P>, later: real)
    requires Sound(policy) && Good(policy, s, r.now) && r.now <= later
    ensures var spent := if Allowed(policy, s, r) then 1.0 else 0.0;
      PeerLevel(policy, Next(policy, s, r), r.peer, later)
      == RealMin(policy.peerBurst, PeerLevel(policy, s, r.peer, r.now) - spent + Earned(later - r.now, policy.peerRate))
  {
    hide Earned;
    var spent := if Allowed(policy, s, r) then 1.0 else 0.0;
    var bucket := if r.peer in s.peers then s.peers[r.peer] else Bucket(policy.peerBurst, r.now);
    Restamp(bucket, policy.peerRate, policy.peerBurst, spent, r.now, later);
    EarnedAdds(0.0, later - r.now, policy.peerRate);
  }

  // ---- whole runs ----

  /** Clock readings never go back. */
  ghost predicate Ordered<P>(requests: seq<Request<P>>, from: real) {
    && (forall i :: 0 <= i < |requests| ==> from <= requests[i].now)
    && (forall i, j :: 0 <= i < j < |requests| ==> requests[i].now <= requests[j].now)
  }

  function Run<P>(policy: Policy, s: State<P>, requests: seq<Request<P>>): State<P> {
    if requests == [] then s else Next(policy, Run(policy, s, requests[..|requests| - 1]), requests[|requests| - 1])
  }

  function Admit<P>(policy: Policy, s: State<P>, r: Request<P>): nat { if Allowed(policy, s, r) then 1 else 0 }

  /** How many of the requests are allowed. */
  function Admitted<P>(policy: Policy, s: State<P>, requests: seq<Request<P>>): nat {
    if requests == [] then 0
    else
      var before := requests[..|requests| - 1];
      Admitted(policy, s, before) + Admit(policy, Run(policy, s, before), requests[|requests| - 1])
  }

  /** How many requests of one peer are allowed. */
  function AdmittedFor<P(==)>(policy: Policy, s: State<P>, requests: seq<Request<P>>, peer: P): nat {
    if requests == [] then 0
    else
      var before, last := requests[..|requests| - 1], requests[|requests| - 1];
      AdmittedFor(policy, s, before, peer) + (if last.peer == peer then Admit(policy, Run(policy, s, before), last) else 0)
  }

  function LastTime<P>(requests: seq<Request<P>>, from: real): real {
    if requests == [] then from else requests[|requests| - 1].now
  }

  /** Tokens are conserved over any run: what was admitted plus what is left never exceeds the level at the start plus the refill. */
  lemma {:induction false} Conservation<P>(policy: Policy, s: State<P>, requests: seq<Request<P>>, from: real, peer: P)
    requires Sound(policy) && Good(policy, s, from) && Ordered(requests, from)
    ensures var t, now := Run(policy, s, requests), LastTime(requests, from);
      && from <= now && Good(policy, t, now)
      && Admitted(policy, s, requests) as real + TotalLevel(policy, t, now)
         <= TotalLevel(policy, s, from) + Earned(now - from, policy.totalRate)
      && AdmittedFor(policy, s, requests, peer) as real + PeerLevel(policy, t, peer, now)
         <= PeerLevel(policy, s, peer, from) + Earned(now - from, policy.peerRate)
  {
    hide Earned, Next, TotalLevel, PeerLevel, Allowed, Good;
    if requests != [] {
      var before, last := requests[..|requests| - 1], requests[|requests| - 1];
      Conservation(policy, s, before, from, peer);
      Advance(policy, Run(policy, s, before), LastTime(before, from), last, peer);
      EarnedAdds(LastTime(before, from) - from, last.now - LastTime(before, from), policy.totalRate);
      EarnedAdds(LastTime(before, from) - from, last.now - LastTime(before, from), policy.peerRate);
      assert last.now - from == (LastTime(before, from) - from) + (last.now - LastTime(before, from));
    } else {
      EarnedAdds(0.0, 0.0, policy.totalRate);
      EarnedAdds(0.0, 0.0, policy.peerRate);
    }
  }

  /** One request, seen from the level at an earlier clock reading. */
  lemma Advance<P>(policy: Policy, s: State<P>, earlier: real, r: Request<P>, peer: P)
    requires Sound(policy) && Good(policy, s, earlier) && earlier <= r.now
    ensures var t := Next(policy, s, r);
      && Good(policy, t, r.now)
      && Admit(policy, s, r) as real + TotalLevel(policy, t, r.now)
         <= TotalLevel(policy, s, earlier) + Earned(r.now - earlier, policy.totalRate)
      && (if peer == r.peer then Admit(policy, s, r) as real else 0.0) + PeerLevel(policy, t, peer, r.now)
         <= PeerLevel(policy, s, peer, earlier) + Earned(r.now - earlier, policy.peerRate)
  {
    hide Earned;
    NextGood(policy, s, r);
    RequestMeaning(policy, s, r, peer, r.now);
    Restamp(s.total, policy.totalRate, policy.totalBurst, 0.0, earlier, r.now);
    EarnedAdds(0.0, r.now - earlier, policy.peerRate);
    EarnedAdds(0.0, r.now - earlier, policy.totalRate);
    if peer in s.peers {
      Restamp(s.peers[peer], policy.peerRate, policy.peerBurst, 0.0, earlier, r.now);
    }
  }

  /**
   * Any time window of any run: the requests from the i-th up to the j-th admit at most burst plus
   * rate times the time they span, in aggregate and for each peer, although the table forgets
   * peers; and the table never outgrows its bound.
   */
  lemma WindowBound<P>(policy: Policy, start: real, requests: seq<Request<P>>, i: nat, j: nat, peer: P)
    requires Sound(policy) && Ordered(requests, start) && i < j <= |requests|
    ensures var s := Run(policy, Initial<P>(policy, start), requests[..i]);
      var window, length := requests[i..j], requests[j - 1].now - requests[i].now;
      && Admitted(policy, s, window) as real <= policy.totalBurst + length * policy.totalRate
      && AdmittedFor(policy, s, window, peer) as real <= policy.peerBurst + length * policy.peerRate
      && |Run(policy, s, window).peers| <= policy.maxPeers
  {
    hide Earned, Run, Admitted, AdmittedFor, Good, Initial, Ordered;
    var s := Run(policy, Initial<P>(policy, start), requests[..i]);
    var from, to := requests[i].now, requests[j - 1].now;
    InitialGood<P>(policy, start);
    PartsOrdered(requests, start, i, j);
    Conservation(policy, Initial<P>(policy, start), requests[..i], start, peer);
    GoodLater(policy, s, LastTime(requests[..i], start), from);
    WindowFrom(policy, s, requests[i..j], from, peer);
    EarnedIs(to - from, policy.totalRate);
    EarnedIs(to - from, policy.peerRate);
  }

  lemma InitialGood<P>(policy: Policy, start: real)
    requires Sound(policy)
    ensures Good(policy, Initial<P>(policy, start), start)
  {
  }

  lemma GoodLater<P>(policy: Policy, s: State<P>, now: real, later: real)
    requires Good(policy, s, now) && now <= later
    ensures Good(policy, s, later)
  {
  }

  lemma PartsOrdered<P>(requests: seq<Request<P>>, start: real, i: nat, j: nat)
    requires Ordered(requests, start) && i < j <= |requests|
    ensures Ordered(requests[..i], start) && Ordered(requests[i..j], requests[i].now)
    ensures start <= LastTime(requests[..i], start) <= requests[i].now <= requests[j - 1].now
    ensures LastTime(requests[i..j], requests[i].now) == requests[j - 1].now
  {
  }

  lemma EarnedIs(elapsed: real, rate: real)
    requires elapsed >= 0.0
    ensures Earned(elapsed, rate) == elapsed * rate
  {
  }

  lemma WindowFrom<P>(policy: Policy, s: State<P>, window: seq<Request<P>>, from: real, peer: P)
    requires Sound(policy) && Good(policy, s, from) && Ordered(window, from) && window != []
    ensures var to := LastTime(window, from);
      && Admitted(policy, s, window) as real <= policy.totalBurst + Earned(to - from, policy.totalRate)
      && AdmittedFor(policy, s, window, peer) as real <= policy.peerBurst + Earned(to - from, policy.peerRate)
      && |Run(policy, s, window).peers| <= policy.maxPeers
  {
    hide Earned, Run, Admitted, AdmittedFor;
    Conservation(policy, s, window, from, peer);
    LevelNonNegative(policy, Run(policy, s, window), LastTime(window, from), peer);
  }

  lemma LevelNonNegative<P>(policy: Policy, s: State<P>, now: real, peer: P)
    requires Sound(policy) && Good(policy, s, now)
    ensures TotalLevel(policy, s, now) >= 0.0 && PeerLevel(policy, s, peer, now) >= 0.0
  {
    hide Earned;
    EarnedAdds(0.0, now - s.total.stamp, policy.totalRate);
    if peer in s.peers {
      EarnedAdds(0.0, now - s.peers[peer].stamp, policy.peerRate);
    }
  }
}
