/** The sliding-window limiter: `RateLimitMiddleware` of `backend/middleware.py`. */
module RateLimiter {
  import opened Money
  datatype Client = Client(ip: string)

  datatype Config = Config(generalLimit: int, authLimit: int, window: real)

  /** `auth` says that the path is under /auth/ or is the session bootstrap. */
  datatype Request = Request(client: Client, auth: bool, now: real)

  /** `Raised` is the index error of a limit that is not positive and an idle client. */
  datatype Outcome = Admitted | Rejected(retryAfter: int) | Raised

  function Limit(cfg: Config, auth: bool): int { if auth then cfg.authLimit else cfg.generalLimit }

  /** The timestamps still inside the window. */
  function Recent(window: real, times: seq<real>, now: real): (r: seq<real>)
    ensures forall t :: t in r <==> t in times && now - t < window
    decreases |times|
  {
    if times == [] then []
    else
      var earlier, t := Recent(window, times[..|times| - 1], now), times[|times| - 1];
      if now - t < window then earlier + [t] else earlier
  }

  function HitsOf(hits: map<Client, seq<real>>, c: Client): seq<real> { if c in hits then hits[c] else [] }

  function RetryAfter(window: real, oldest: real, now: real): int {
    var wait := Truncate(window - (now - oldest));
    if wait > 1 then wait else 1
  }

  function Decision(cfg: Config, r: Request, recent: seq<real>): Outcome {
    if |recent| < Limit(cfg, r.auth) then Admitted
    else if recent == [] then Raised
    else Rejected(RetryAfter(cfg.window, recent[0], r.now))
  }

  function Handled(cfg: Config, hits: map<Client, seq<real>>, r: Request): map<Client, seq<real>> {
    var recent := Recent(cfg.window, HitsOf(hits, r.client), r.now);
    hits[r.client := if Decision(cfg, r, recent).Admitted? then recent + [r.now] else recent]
  }

  class RateLimitMiddleware {
    const config: Config
    var hits: map<Client, seq<real>>

    constructor (config: Config)
      ensures this.config == config && hits == map[]
    {
      this.config := config;
      hits := map[];
    }

    method Dispatch(r: Request) returns (outcome: Outcome)
      modifies this`hits
      ensures outcome == Decision(config, r, Recent(config.window, HitsOf(old(hits), r.client), r.now))
      ensures hits == Handled(config, old(hits), r)
    {
      var stamps := HitsOf(hits, r.client);
      var kept: seq<real> := [];
      for i := 0 to |stamps|
        invariant kept == Recent(config.window, stamps[..i], r.now)
      {
        assert stamps[..i + 1][..i] == stamps[..i];
        if r.now - stamps[i] < config.window { kept := kept + [stamps[i]]; }
      }
      assert stamps[..|stamps|] == stamps;
      hits := hits[r.client := kept];
      var limit := Limit(config, r.auth);
      if |kept| >= limit {
        if kept == [] { return Raised; }
        return Rejected(RetryAfter(config.window, kept[0], r.now));
      }
      hits := hits[r.client := kept + [r.now]];
      return Admitted;
    }
  }
}
