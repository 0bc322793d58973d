/** The limiter against its full history. */
module RateLimiterTheorems {
  import opened Money
  import opened RateLimiter

  /** An admitted request of one client. */
  datatype Hit = Hit(at: real, auth: bool)

  /** All admissions so far, nothing ever evicted. */
  type History = map<Client, seq<Hit>>

  function Admissions(h: History, c: Client): seq<Hit> { if c in h then h[c] else [] }

  /** How many of the client's admissions lie in the window that ends now. */
  function InWindow(window: real, hits: seq<Hit>, now: real): nat
    decreases |hits|
  {
    if hits == [] then 0
    else InWindow(window, hits[..|hits| - 1], now) + if now - hits[|hits| - 1].at < window then 1 else 0
  }

  /** The specification: fewer admissions in the window than the request's limit. */
  predicate Allowed(cfg: Config, h: History, r: Request) {
    InWindow(cfg.window, Admissions(h, r.client), r.now) < if r.auth then cfg.authLimit else cfg.generalLimit
  }

  function Recorded(cfg: Config, h: History, r: Request): History {
    if Allowed(cfg, h, r) then h[r.client := Admissions(h, r.client) + [Hit(r.now, r.auth)]] else h
  }

  function Ideal(cfg: Config, rs: seq<Request>): History
    decreases |rs|
  {
    if rs == [] then map[] else Recorded(cfg, Ideal(cfg, rs[..|rs| - 1]), rs[|rs| - 1])
  }

  function Actual(cfg: Config, rs: seq<Request>): map<Client, seq<real>>
    decreases |rs|
  {
    if rs == [] then map[] else Handled(cfg, Actual(cfg, rs[..|rs| - 1]), rs[|rs| - 1])
  }

  function ActualOutcome(cfg: Config, rs: seq<Request>, i: nat): Outcome
    requires i < |rs|
  {
    Decision(cfg, rs[i], Recent(cfg.window, HitsOf(Actual(cfg, rs[..i]), rs[i].client), rs[i].now))
  }

  ghost predicate Monotone(rs: seq<Request>) { forall i, j :: 0 <= i < j < |rs| ==> rs[i].now <= rs[j].now }

  // ------------------------------------------------------------------ refinement

  function Times(hits: seq<Hit>): (t: seq<real>)
    ensures |t| == |hits| && forall i :: 0 <= i < |hits| ==> t[i] == hits[i].at
  {
    seq(|hits|, i requires 0 <= i < |hits| => hits[i].at)
  }

  lemma {:induction false} InWindowIsRecent(window: real, hits: seq<Hit>, now: real)
    ensures InWindow(window, hits, now) == |Recent(window, Times(hits), now)|
    decreases |hits|
  {
    if hits == [] {
    } else {
      InWindowIsRecent(window, hits[..|hits| - 1], now);
      assert Times(hits)[..|hits| - 1] == Times(hits[..|hits| - 1]);
    }
  }

  lemma {:induction false} RecentAppend(window: real, a: seq<real>, t: real, now: real)
    ensures Recent(window, a + [t], now)
         == if now - t < window then Recent(window, a, now) + [t] else Recent(window, a, now)
  {
    assert (a + [t])[..|a|] == a;
  }

  /** What is evicted now would be outside any later window too. */
  lemma {:induction false} EvictionIsSafe(window: real, times: seq<real>, now: real, later: real)
    requires now <= later
    ensures Recent(window, Recent(window, times, now), later) == Recent(window, times, later)
    decreases |times|
  {
    if times == [] {
    } else {
      var init, t := times[..|times| - 1], times[|times| - 1];
      EvictionIsSafe(window, init, now, later);
      if now - t < window { RecentAppend(window, Recent(window, init, now), t, later); }
    }
  }

  /** From `now` on, the kept timestamps and the full history look the same. */
  ghost predicate Agrees(window: real, kept: seq<real>, hits: seq<Hit>, now: real) {
    forall later :: later >= now ==> Recent(window, kept, later) == Recent(window, Times(hits), later)
  }

  ghost predicate Refines(cfg: Config, hits: map<Client, seq<real>>, h: History, now: real) {
    forall c :: Agrees(cfg.window, HitsOf(hits, c), Admissions(h, c), now)
  }

  lemma {:induction false} StepRefines(cfg: Config, hits: map<Client, seq<real>>, h: History, r: Request)
    requires Refines(cfg, hits, h, r.now)
    ensures Refines(cfg, Handled(cfg, hits, r), Recorded(cfg, h, r), r.now)
    ensures Decision(cfg, r, Recent(cfg.window, HitsOf(hits, r.client), r.now)).Admitted? <==> Allowed(cfg, h, r)
  {
    var kept, all := HitsOf(hits, r.client), Admissions(h, r.client);
    assert Agrees(cfg.window, kept, all, r.now);
    var recent := Recent(cfg.window, kept, r.now);
    InWindowIsRecent(cfg.window, all, r.now);
    forall c ensures Agrees(cfg.window, HitsOf(Handled(cfg, hits, r), c), Admissions(Recorded(cfg, h, r), c), r.now) {
      if c == r.client {
        if Allowed(cfg, h, r) {
          AdmissionAgrees(cfg.window, kept, all, r);
        } else {
          forall later | later >= r.now
            ensures Recent(cfg.window, recent, later) == Recent(cfg.window, Times(all), later)
          {
            EvictionIsSafe(cfg.window, kept, r.now, later);
          }
        }
      } else {
        assert Agrees(cfg.window, HitsOf(hits, c), Admissions(h, c), r.now);
      }
    }
  }

  lemma {:induction false} TimesAppend(all: seq<Hit>, x: Hit)
    ensures Times(all + [x]) == Times(all) + [x.at]
  {
  }

  lemma {:induction false} AdmissionAgreesAt(window: real, kept: seq<real>, all: seq<Hit>, r: Request, later: real)
    requires r.now <= later && Recent(window, kept, later) == Recent(window, Times(all), later)
    ensures Recent(window, Recent(window, kept, r.now) + [r.now], later)
         == Recent(window, Times(all + [Hit(r.now, r.auth)]), later)
  {
    EvictionIsSafe(window, kept, r.now, later);
    RecentAppend(window, Recent(window, kept, r.now), r.now, later);
    RecentAppend(window, Times(all), r.now, later);
    TimesAppend(all, Hit(r.now, r.auth));
  }

  lemma {:induction false} AdmissionAgrees(window: real, kept: seq<real>, all: seq<Hit>, r: Request)
    requires Agrees(window, kept, all, r.now)
    ensures Agrees(window, Recent(window, kept, r.now) + [r.now], all + [Hit(r.now, r.auth)], r.now)
  {
    var recent, hits := Recent(window, kept, r.now) + [r.now], all + [Hit(r.now, r.auth)];
    forall later | later >= r.now
      ensures Recent(window, recent, later) == Recent(window, Times(hits), later)
    {
      AdmissionAgreesAt(window, kept, all, r, later);
    }
  }

  lemma {:induction false} RunRefines(cfg: Config, rs: seq<Request>, now: real)
    requires Monotone(rs) && (rs != [] ==> rs[|rs| - 1].now <= now)
    ensures Refines(cfg, Actual(cfg, rs), Ideal(cfg, rs), now)
    decreases |rs|
  {
    if rs == [] {
    } else {
      var init, r := rs[..|rs| - 1], rs[|rs| - 1];
      RunRefines(cfg, init, r.now);
      StepRefines(cfg, Actual(cfg, init), Ideal(cfg, init), r);
      forall c ensures Agrees(cfg.window, HitsOf(Actual(cfg, rs), c), Admissions(Ideal(cfg, rs), c), now) {
        assert Agrees(cfg.window, HitsOf(Actual(cfg, rs), c), Admissions(Ideal(cfg, rs), c), r.now);
      }
    }
  }

  /** With a clock that does not go back, a request is admitted exactly when fewer
      admissions of that client than its limit lie in the window that ends with it. */
  lemma {:induction false} AdmittedIff(cfg: Config, rs: seq<Request>, i: nat)
    requires Monotone(rs) && i < |rs|
    ensures ActualOutcome(cfg, rs, i).Admitted? <==> Allowed(cfg, Ideal(cfg, rs[..i]), rs[i])
  {
    RunRefines(cfg, rs[..i], rs[i].now);
    StepRefines(cfg, Actual(cfg, rs[..i]), Ideal(cfg, rs[..i]), rs[i]);
  }

  // ------------------------------------------------------------------ how many fit in a window

  /** Admissions of a client in [from, from + window). */
  function Within(window: real, hits: seq<Hit>, from: real): nat
    decreases |hits|
  {
    if hits == [] then 0
    else Within(window, hits[..|hits| - 1], from) + if from <= hits[|hits| - 1].at < from + window then 1 else 0
  }

  function AuthWithin(window: real, hits: seq<Hit>, from: real): nat
    decreases |hits|
  {
    if hits == [] then 0
    else
      AuthWithin(window, hits[..|hits| - 1], from)
      + if hits[|hits| - 1].auth && from <= hits[|hits| - 1].at < from + window then 1 else 0
  }

  lemma {:induction false} WithinSeen(window: real, hits: seq<Hit>, from: real, now: real)
    requires from <= now < from + window
    ensures AuthWithin(window, hits, from) <= Within(window, hits, from) <= InWindow(window, hits, now)
    decreases |hits|
  {
    if hits == [] {
    } else {
      WithinSeen(window, hits[..|hits| - 1], from, now);
    }
  }

  function Larger(a: int, b: int): int { if a >= b then a else b }

  function AtLeastZero(n: int): nat { if n >= 0 then n else 0 }

  lemma {:induction false} HistoryAppend(window: real, hits: seq<Hit>, x: Hit, from: real)
    ensures Within(window, hits + [x], from) == Within(window, hits, from) + if from <= x.at < from + window then 1 else 0
    ensures AuthWithin(window, hits + [x], from)
         == AuthWithin(window, hits, from) + if x.auth && from <= x.at < from + window then 1 else 0
  {
    assert (hits + [x])[..|hits|] == hits;
  }

  /** Every interval of one window's length holds at most the larger limit of admissions
      of one client, and at most the auth limit of admissions to auth paths. */
  lemma {:induction false} WindowBound(cfg: Config, rs: seq<Request>, c: Client, from: real)
    ensures Within(cfg.window, Admissions(Ideal(cfg, rs), c), from)
         <= AtLeastZero(Larger(cfg.generalLimit, cfg.authLimit))
    ensures AuthWithin(cfg.window, Admissions(Ideal(cfg, rs), c), from) <= AtLeastZero(cfg.authLimit)
    decreases |rs|
  {
    if rs == [] {
    } else {
      var init, r := rs[..|rs| - 1], rs[|rs| - 1];
      WindowBound(cfg, init, c, from);
      var h := Ideal(cfg, init);
      if c == r.client && Allowed(cfg, h, r) {
        HistoryAppend(cfg.window, Admissions(h, c), Hit(r.now, r.auth), from);
        if from <= r.now < from + cfg.window { WithinSeen(cfg.window, Admissions(h, c), from, r.now); }
      }
    }
  }

  /** The client's admissions of one kind in the window that ends now. */
  function OfKind(window: real, hits: seq<Hit>, now: real, auth: bool): nat
    decreases |hits|
  {
    if hits == [] then 0
    else
      var x := hits[|hits| - 1];
      OfKind(window, hits[..|hits| - 1], now, auth) + if x.auth == auth && now - x.at < window then 1 else 0
  }

  lemma {:induction false} KindsAddUp(window: real, hits: seq<Hit>, now: real)
    ensures InWindow(window, hits, now) == OfKind(window, hits, now, false) + OfKind(window, hits, now, true)
    decreases |hits|
  {
    if hits == [] {
    } else {
      KindsAddUp(window, hits[..|hits| - 1], now);
    }
  }

  /** Ordinary requests use up the limit of the auth paths: with as many of them in the window
      an auth request is refused though it may be the first one, and in general it is admitted
      exactly when both kinds together leave room. */
  lemma {:induction false} OrdinaryTrafficBlocksAuth(cfg: Config, rs: seq<Request>, i: nat)
    requires Monotone(rs) && i < |rs| && rs[i].auth
    ensures var past := Admissions(Ideal(cfg, rs[..i]), rs[i].client);
            var ordinary := OfKind(cfg.window, past, rs[i].now, false);
            && (ordinary >= cfg.authLimit ==> !ActualOutcome(cfg, rs, i).Admitted?)
            && (ActualOutcome(cfg, rs, i).Admitted?
                <==> ordinary + OfKind(cfg.window, past, rs[i].now, true) < cfg.authLimit)
  {
    AdmittedIff(cfg, rs, i);
    KindsAddUp(cfg.window, Admissions(Ideal(cfg, rs[..i]), rs[i].client), rs[i].now);
  }

  /** The oldest hit has left the window after the advertised wait exactly when no fraction
      of a second was cut off (or less than one second was left). */
  lemma {:induction false} RetryAfterSufficesIff(window: real, oldest: real, now: real)
    requires now - oldest < window
    ensures var wait := RetryAfter(window, oldest, now);
            var left := window - (now - oldest);
            now + wait as real - oldest >= window <==> left <= 1.0 || left == left.Floor as real
  {
  }

  // ------------------------------------------------------------------ what a refusal says

  /** The timestamp of the client's earliest admission still inside the window. */
  ghost predicate OldestInside(window: real, hits: seq<Hit>, now: real, k: nat) {
    && k < |hits| && now - hits[k].at < window
    && forall i :: 0 <= i < k ==> now - hits[i].at >= window
  }

  lemma {:induction false} FirstRecent(window: real, times: seq<real>, now: real, k: nat)
    requires k < |times| && now - times[k] < window && forall i :: 0 <= i < k ==> now - times[i] >= window
    ensures Recent(window, times, now) != [] && Recent(window, times, now)[0] == times[k]
    decreases |times|
  {
    var n := |times| - 1;
    if k == n {
      NothingRecent(window, times[..n], now);
    } else {
      FirstRecent(window, times[..n], now, k);
    }
  }

  lemma {:induction false} NothingRecent(window: real, times: seq<real>, now: real)
    requires forall i :: 0 <= i < |times| ==> now - times[i] >= window
    ensures Recent(window, times, now) == []
    decreases |times|
  {
    if times == [] {
    } else {
      NothingRecent(window, times[..|times| - 1], now);
    }
  }

  lemma {:induction false} RefusalReads(cfg: Config, r: Request, recent: seq<real>)
    requires !Decision(cfg, r, recent).Admitted?
    ensures recent == [] <==> Decision(cfg, r, recent) == Raised
    ensures recent != [] ==> Decision(cfg, r, recent) == Rejected(WholeSeconds(cfg.window - (r.now - recent[0])))
  {
    if recent != [] { WaitIsWhole(cfg.window - (r.now - recent[0])); }
  }

  lemma {:induction false} WaitIsWhole(wait: real)
    ensures (if Truncate(wait) > 1 then Truncate(wait) else 1) == WholeSeconds(wait)
  {
  }

  lemma {:induction false} ActualReads(cfg: Config, rs: seq<Request>, i: nat)
    requires Monotone(rs) && i < |rs|
    ensures var past := Admissions(Ideal(cfg, rs[..i]), rs[i].client);
            ActualOutcome(cfg, rs, i) == Decision(cfg, rs[i], Recent(cfg.window, Times(past), rs[i].now))
  {
    RunRefines(cfg, rs[..i], rs[i].now);
    var past, kept := Admissions(Ideal(cfg, rs[..i]), rs[i].client), HitsOf(Actual(cfg, rs[..i]), rs[i].client);
    assert Agrees(cfg.window, kept, past, rs[i].now);
  }

  /** A refused request is told to wait until the oldest admission in the window leaves it, in
      whole seconds and one at least; only a client without any there, which a limit that is
      not positive refuses, gets an error instead. */
  lemma {:induction false} RefusalNamesOldest(cfg: Config, rs: seq<Request>, i: nat, k: nat)
    requires Monotone(rs) && i < |rs|
    requires !ActualOutcome(cfg, rs, i).Admitted?
    ensures var past := Admissions(Ideal(cfg, rs[..i]), rs[i].client);
            && (OldestInside(cfg.window, past, rs[i].now, k) ==>
                  ActualOutcome(cfg, rs, i) == Rejected(WholeSeconds(cfg.window - (rs[i].now - past[k].at))))
            && (InWindow(cfg.window, past, rs[i].now) == 0 <==> ActualOutcome(cfg, rs, i) == Raised)
  {
    var past := Admissions(Ideal(cfg, rs[..i]), rs[i].client);
    ActualReads(cfg, rs, i);
    RefusalReads(cfg, rs[i], Recent(cfg.window, Times(past), rs[i].now));
    InWindowIsRecent(cfg.window, past, rs[i].now);
    if OldestInside(cfg.window, past, rs[i].now, k) { FirstRecent(cfg.window, Times(past), rs[i].now, k); }
  }

  /** The whole seconds of a wait, one at least. */
  function WholeSeconds(wait: real): int { if wait < 2.0 then 1 else wait.Floor }
}
