/** The network bridge's pure parts: the URL join, and the gate that refuses to send
    unless the engine is ACTIVE. */
module ApiBridge {
  import opened Common
  import opened EngineStates
  import BlackoutEngine
  import TeardownManager

  predicate EndsWithSlash(s: string) {
    |s| > 0 && s[|s| - 1] == '/'
  }

  predicate StartsWithSlash(s: string) {
    |s| > 0 && s[0] == '/'
  }

  /** The string without one trailing slash, if it has one. */
  function DropTrailingSlash(s: string): (r: string)
    ensures EndsWithSlash(s) ==> s == r + "/"
    ensures !EndsWithSlash(s) ==> r == s
  {
    if EndsWithSlash(s) then s[..|s| - 1] else s
  }

  /** The string without one leading slash, if it has one. */
  function DropLeadingSlash(s: string): (r: string)
    ensures StartsWithSlash(s) ==> s == "/" + r
    ensures !StartsWithSlash(s) ==> r == s
  {
    if StartsWithSlash(s) then s[1..] else s
  }

  /** `normalizeUrl`: joins base and endpoint. The result starts with the whole base and is,
      equivalently, the base less one trailing slash, exactly one slash, and the endpoint less
      one leading slash. */
  function NormalizeUrl(base: string, endpoint: string): (url: string)
    ensures base <= url
    ensures url == DropTrailingSlash(base) + "/" + DropLeadingSlash(endpoint)
  {
    if EndsWithSlash(base) && StartsWithSlash(endpoint) then
      base + endpoint[1..]
    else if !EndsWithSlash(base) && !StartsWithSlash(endpoint) then
      base + "/" + endpoint
    else
      base + endpoint
  }

  /** The three branches of the join, stated on the inputs. */
  lemma NormalizeUrlCases(base: string, endpoint: string)
    ensures EndsWithSlash(base) && StartsWithSlash(endpoint) ==>
              NormalizeUrl(base, endpoint) == base + endpoint[1..]
    ensures !EndsWithSlash(base) && !StartsWithSlash(endpoint) ==>
              NormalizeUrl(base, endpoint) == base + "/" + endpoint
    ensures EndsWithSlash(base) != StartsWithSlash(endpoint) ==>
              NormalizeUrl(base, endpoint) == base + endpoint
  {
  }

  /** The result ends with the endpoint, less at most its one leading slash. */
  lemma NormalizeUrlEndsWithEndpoint(base: string, endpoint: string)
    ensures var url := NormalizeUrl(base, endpoint);
            var tail := DropLeadingSlash(endpoint);
            |tail| <= |url| && url[|url| - |tail|..] == tail
  {
  }

  /** What `send` does with a request: refuse it (return `null`) or pass the gate towards
      signing the payload and posting it to the joined URL. */
  datatype Dispatch = Blocked | Forwarded(url: string, payload: Bytes)

  /** The gate at the top of `send`: anything but an ACTIVE engine is refused before signing. */
  function Send(baseUrl: string, engine: BlackoutEngine.Engine, endpoint: string, payload: Bytes): (d: Dispatch)
    ensures d.Blocked? <==> BlackoutEngine.GetState(engine) != Active
    ensures d.Forwarded? ==> d.url == NormalizeUrl(baseUrl, endpoint) && d.payload == payload
  {
    if BlackoutEngine.GetState(engine) != Active then Blocked
    else Forwarded(NormalizeUrl(baseUrl, endpoint), payload)
  }

  /** After `erase`, and after any anomaly, the bridge sends nothing. */
  lemma BlockedAfterEraseOrAnomaly(baseUrl: string, engine: BlackoutEngine.Engine, endpoint: string,
                                   payload: Bytes)
    requires TeardownManager.RefsValid(engine)
    ensures Send(baseUrl, BlackoutEngine.Erase(engine), endpoint, payload) == Blocked
    ensures engine.mediator.state == Locked ==> Send(baseUrl, engine, endpoint, payload) == Blocked
  {
  }
}
