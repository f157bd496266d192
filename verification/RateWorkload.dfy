/** The qualification workload: one abusive peer beside four controllers, on the default policy. */
module RateWorkload {
  import opened Numbers
  import opened RateLimiter

  datatype Peer = Abuser | ControllerA | ControllerB | ControllerC | ControllerD

  const CONTROLLERS := [ControllerA, ControllerB, ControllerC, ControllerD]

  datatype Outcome = Outcome(controllersAllowed: nat, controllersDenied: nat, abuserAllowed: nat, abuserDenied: nat, passed: bool)

  /** The abuser's tokens when tick `n` starts: it loses two a tick, then lives on its refill. */
  function AbuserTokens(n: nat): nat { if n < 100 then 200 - 2 * n else 1 }

  /** How far the aggregate bucket may have fallen behind the abuser's within a five-tick cycle. */
  function CycleDebt(n: nat): nat { if n % 5 == 0 then 0 else 4 - n % 5 }

  /** A lower bound on the aggregate bucket when tick `n` starts. */
  function TotalFloor(n: nat): real { (AbuserTokens(n) + 200 - CycleDebt(n)) as real }

  function AbuserAllowed(n: nat): nat { if n < 100 then 3 * n else n + 199 }

  function ControllersAllowed(n: nat): nat { 4 * ((n + 4) / 5) }

  /** The limiter's levels at one clock reading; controllers in `full` have full buckets, the others spent a token. */
  ghost predicate Levels(s: State<Peer>, now: real, abuser: nat, full: set<Peer>, total: real) {
    && Good(DEFAULT_POLICY, s, now)
    && PeerLevel(DEFAULT_POLICY, s, Abuser, now) == abuser as real
    && (forall p :: p != Abuser ==> PeerLevel(DEFAULT_POLICY, s, p, now) == if p in full then 200.0 else 199.0)
    && TotalLevel(DEFAULT_POLICY, s, now) >= total
  }

  const ALL: set<Peer> := {Abuser, ControllerA, ControllerB, ControllerC, ControllerD}

  lemma AlwaysRoom(s: State<Peer>, r: Request<Peer>)
    ensures HasRoom(DEFAULT_POLICY, s, r)
  {
    forall p: Peer ensures p in ALL {
      match p case Abuser => case ControllerA => case ControllerB => case ControllerC => case ControllerD =>
    }
    Subset(s.peers.Keys, ALL);
  }

  lemma Subset(a: set<Peer>, b: set<Peer>)
    requires a <= b
    ensures |a| <= |b|
  {
    if p :| p in a { Subset(a - {p}, b - {p}); }
  }

  lemma Serve(s: State<Peer>, now: real, abuser: nat, full: set<Peer>, total: real, peer: Peer)
    requires Levels(s, now, abuser, full, total) && total >= 1.0
    ensures var r := Request(peer, now); var t := Next(DEFAULT_POLICY, s, r);
      && Allowed(DEFAULT_POLICY, s, r) == (peer == Abuser ==> abuser >= 1)
      && (peer == Abuser ==> Levels(t, now, if abuser >= 1 then abuser - 1 else 0, full, if abuser >= 1 then total - 1.0 else total))
      && (peer != Abuser && peer in full ==> Levels(t, now, abuser, full - {peer}, total - 1.0))
  {
    hide Earned, Next, PeerLevel, TotalLevel, HasRoom, Good;
    var r := Request(peer, now);
    var t := Next(DEFAULT_POLICY, s, r);
    AlwaysRoom(s, r);
    NextGood(DEFAULT_POLICY, s, r);
    LevelsBounded(s, now, peer);
    forall p: Peer
      ensures PeerLevel(DEFAULT_POLICY, t, p, now) == PeerLevel(DEFAULT_POLICY, s, p, now)
        - (if p == peer && Allowed(DEFAULT_POLICY, s, r) then 1.0 else 0.0)
    {
      RequestMeaning(DEFAULT_POLICY, s, r, p, now);
      LevelsBounded(s, now, p);
    }
    RequestMeaning(DEFAULT_POLICY, s, r, peer, now);
  }

  lemma LevelsBounded(s: State<Peer>, now: real, p: Peer)
    ensures PeerLevel(DEFAULT_POLICY, s, p, now) <= 200.0 && TotalLevel(DEFAULT_POLICY, s, now) <= 400.0
    ensures Earned(0.0, 100.0) == 0.0 && Earned(0.0, 200.0) == 0.0
  {
  }

  /** Ten milliseconds refill one token of every peer and two of the aggregate. */
  lemma Refill(s: State<Peer>, now: real, abuser: nat, full: set<Peer>, total: real)
    requires Levels(s, now, abuser, full, total) && abuser < 200
    ensures Levels(s, now + 0.01, abuser + 1, ALL, RealMin(400.0, total + 2.0))
  {
    var later := now + 0.01;
    assert Earned(later - now, 100.0) == 1.0 && Earned(later - now, 200.0) == 2.0;
    Restamp(s.total, 200.0, 400.0, 0.0, now, later);
    forall p: Peer
      ensures PeerLevel(DEFAULT_POLICY, s, p, later) == RealMin(200.0, PeerLevel(DEFAULT_POLICY, s, p, now) + 1.0)
    {
      if p in s.peers {
        Restamp(s.peers[p], 100.0, 200.0, 0.0, now, later);
      }
    }
  }

  /** The abuser's three requests of one tick. */
  method AbuserTurn(limiter: RequestRateLimiter<Peer>, now: real, ghost abuser: nat, ghost total: real) returns (allowed: nat)
    requires limiter.policy == DEFAULT_POLICY && Levels(limiter.Contents(), now, abuser, ALL, total) && total >= 5.0
    modifies limiter
    ensures allowed == if abuser < 3 then abuser else 3
    ensures Levels(limiter.Contents(), now, abuser - allowed, ALL, total - allowed as real)
  {
    hide Good, PeerLevel, TotalLevel, Next, Levels, Allowed;
    allowed := 0;
    for i := 0 to 3
      invariant allowed == if abuser < i then abuser else i
      invariant Levels(limiter.Contents(), now, abuser - allowed, ALL, total - allowed as real)
    {
      Serve(limiter.Contents(), now, abuser - allowed, ALL, total - allowed as real, Abuser);
      var ok := limiter.Allow(Abuser, now);
      if ok { allowed := allowed + 1; }
    }
  }

  /** Everyone except the first `i` controllers. */
  ghost function Waiting(i: nat): set<Peer>
    requires i <= 4
  {
    if i == 0 then ALL else Waiting(i - 1) - {CONTROLLERS[i - 1]}
  }

  lemma StillWaiting(i: nat)
    requires i < 4
    ensures CONTROLLERS[i] in Waiting(i) && CONTROLLERS[i] != Abuser
  {
    if i == 3 { assert Waiting(2) == Waiting(1) - {ControllerB}; }
  }

  lemma AllServed()
    ensures Waiting(4) == {Abuser}
  {
    assert Waiting(2) == {Abuser, ControllerC, ControllerD};
  }

  /** One request of each controller. */
  method ControllersTurn(limiter: RequestRateLimiter<Peer>, now: real, ghost abuser: nat, ghost total: real) returns (allowed: nat)
    requires limiter.policy == DEFAULT_POLICY && Levels(limiter.Contents(), now, abuser, ALL, total) && total >= 5.0
    modifies limiter
    ensures allowed == 4
    ensures Levels(limiter.Contents(), now, abuser, {Abuser}, total - 4.0)
  {
    hide Good, PeerLevel, TotalLevel, Next, Levels, Allowed;
    allowed := 0;
    ghost var full := ALL;
    for i := 0 to |CONTROLLERS|
      invariant allowed == i && full == Waiting(i)
      invariant Levels(limiter.Contents(), now, abuser, full, total - i as real)
    {
      StillWaiting(i);
      Serve(limiter.Contents(), now, abuser, full, total - i as real, CONTROLLERS[i]);
      var ok := limiter.Allow(CONTROLLERS[i], now);
      full := full - {CONTROLLERS[i]};
      assert full == Waiting(i + 1);
      if ok { allowed := allowed + 1; }
    }
    AllServed();
  }

  /**
   * For every number of ticks: no controller is ever denied, the abuser is admitted exactly as
   * often as its bucket allows, and the run passes exactly from the hundredth tick on.
   */
  method SimulateRatePolicy(ticks: int) returns (outcome: Outcome)
    ensures var n := if ticks < 0 then 0 else ticks;
      && outcome.controllersDenied == 0
      && outcome.controllersAllowed == ControllersAllowed(n)
      && outcome.abuserAllowed == AbuserAllowed(n)
      && outcome.abuserDenied == 3 * n - AbuserAllowed(n)
      && (outcome.passed <==> ticks >= 100)
  {
    hide Good, PeerLevel, TotalLevel, Next, Levels, Allowed, Initial;
    hide AbuserTokens, CycleDebt, AbuserAllowed, ControllersAllowed, TotalFloor;
    Counts(0);
    var now := 0.0;
    var limiter := new RequestRateLimiter<Peer>(DEFAULT_POLICY, now);
    Start();
    var controllersAllowed, controllersDenied, abuserAllowed, abuserDenied := 0, 0, 0, 0;
    var tick := 0;
    while tick < ticks
      invariant 0 <= tick && (ticks >= 0 ==> tick <= ticks) && (ticks < 0 ==> tick == 0)
      invariant fresh(limiter) && limiter.policy == DEFAULT_POLICY
      invariant Levels(limiter.Contents(), now, AbuserTokens(tick), ALL, TotalFloor(tick))
      invariant controllersAllowed == ControllersAllowed(tick) && controllersDenied == 0
      invariant abuserAllowed == AbuserAllowed(tick) && abuserDenied == 3 * tick - AbuserAllowed(tick)
    {
      TickMath(tick);
      ghost var tokens, total := AbuserTokens(tick), TotalFloor(tick);
      var served := AbuserTurn(limiter, now, tokens, total);
      abuserAllowed := abuserAllowed + served;
      abuserDenied := abuserDenied + (3 - served);
      ghost var left, spent, full := tokens - served, served as real, ALL;
      if tick % 5 == 0 {
        served := ControllersTurn(limiter, now, left, total - spent);
        spent, full := spent + 4.0, {Abuser};
        controllersAllowed := controllersAllowed + served;
        controllersDenied := controllersDenied + (4 - served);
      }
      Refill(limiter.Contents(), now, left, full, total - spent);
      Weaken(limiter.Contents(), now + 0.01, left + 1, RealMin(400.0, total - spent + 2.0), TotalFloor(tick + 1));
      now := now + 0.01;
      tick := tick + 1;
    }
    Counts(tick);
    return Outcome(controllersAllowed, controllersDenied, abuserAllowed, abuserDenied, controllersDenied == 0 && abuserDenied > 0);
  }

  lemma Weaken(s: State<Peer>, now: real, abuser: nat, total: real, floor: real)
    requires Levels(s, now, abuser, ALL, total) && floor <= total
    ensures Levels(s, now, abuser, ALL, floor)
  {
  }

  lemma Counts(n: nat)
    ensures AbuserAllowed(0) == 0 && ControllersAllowed(0) == 0 && AbuserTokens(0) == 200 && TotalFloor(0) == 400.0
    ensures 3 * n - AbuserAllowed(n) > 0 <==> n >= 100
  {
  }

  /** One tick of the closed forms. */
  lemma TickMath(n: nat)
    ensures var tokens, served := AbuserTokens(n), if AbuserTokens(n) < 3 then AbuserTokens(n) else 3;
      var spent := if n % 5 == 0 then served + 4 else served;
      && 1 <= tokens <= 200 && TotalFloor(n) >= 20.0
      && AbuserTokens(n + 1) == tokens - served + 1
      && AbuserAllowed(n + 1) == AbuserAllowed(n) + served
      && ControllersAllowed(n + 1) == ControllersAllowed(n) + (if n % 5 == 0 then 4 else 0)
      && TotalFloor(n + 1) <= RealMin(400.0, TotalFloor(n) - spent as real + 2.0)
  {
    assert (n + 5) / 5 == (n + 4) / 5 + if n % 5 == 0 then 1 else 0;
    assert n % 5 != 4 ==> (n + 1) % 5 == n % 5 + 1;
  }

  lemma Start()
    ensures Levels(Initial(DEFAULT_POLICY, 0.0), 0.0, 200, ALL, 400.0)
  {
    hide Earned;
    var s: State<Peer> := Initial(DEFAULT_POLICY, 0.0);
    LevelsBounded(s, 0.0, Abuser);
    assert TotalLevel(DEFAULT_POLICY, s, 0.0) == 400.0;
  }
}
