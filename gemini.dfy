/** The outcome of loading a page. The Gemini client itself (TLS, the request
    line, reading the response) is internal/gemini/client.go, which is not
    part of this model: a fetch is a function from a URL to either an error
    or a response header and body. URL resolution (`url.Parse` and
    `ResolveReference`) is likewise a function given to the session. */
module Gemini {
  import opened Text

  /** A Gemini response: the two-digit status, the meta field and the body. */
  datatype Response = Response(statusCode: int, meta: string, body: string)

  /** What `gemini.Fetch` returns: an error or a response. */
  datatype FetchResult = FetchError(message: string) | Fetched(resp: Response)

  /** Status classes: only 2x carries a page, 3x is a redirect to the meta URL. */
  predicate IsSuccess(code: int) { 20 <= code < 30 }
  predicate IsRedirect(code: int) { 30 <= code < 40 }

  const AnyKey: string := "Press any key to continue..."

  /** How a navigation ends: a page to show (its URL and body), an error that
      was reported, or a chain of redirects longer than the model follows. */
  datatype Outcome = Loaded(url: string, body: string) | Failed | GaveUp

  /** The outcome and the text written on the way. */
  datatype Navigation = Navigation(outcome: Outcome, writes: seq<string>)

  /** The report of a fetch that gives no page: the error, or the status and
      meta, followed by the key prompt. */
  function ErrorReport(r: FetchResult): (w: seq<string>)
    ensures |w| == 2 && w[1] == AnyKey
    ensures r.FetchError? ==> w[0] == "Error: " + r.message + "\r\n"
    ensures r.Fetched? ==>
      w[0] == "Error: Status " + IntToString(r.resp.statusCode) + " - " + r.resp.meta + "\r\n"
  {
    match r
    case FetchError(m) => ["Error: " + m + "\r\n", AnyKey]
    case Fetched(resp) => ["Error: Status " + IntToString(resp.statusCode) + " - " + resp.meta + "\r\n", AnyKey]
  }

  /** The URL `navigateTo` fetches: relative to the page on screen, when there is one. */
  function Target(resolve: (string, string) -> string, base: string, url: string): string
  {
    if base == [] then url else resolve(base, url)
  }

  /** `navigateTo` up to the state change: announce the URL, fetch it, follow
      a redirect to its meta URL (resolved against the same page, which has
      not changed), report an error or a non-2x status, or hand back the body
      of a 2x page. At most `fuel` redirects are followed. */
  function Follow(fetch: string -> FetchResult, resolve: (string, string) -> string,
                  base: string, url: string, fuel: nat): Navigation
    decreases fuel
  {
    var u := Target(resolve, base, url);
    var announce := ["\r\n\U{1B}[KFetching " + u + "...\r\n"];
    var r := fetch(u);
    if r.Fetched? && IsRedirect(r.resp.statusCode) then
      if fuel == 0 then Navigation(GaveUp, announce)
      else
        var n := Follow(fetch, resolve, base, r.resp.meta, fuel - 1);
        Navigation(n.outcome, announce + n.writes)
    else if r.Fetched? && IsSuccess(r.resp.statusCode) then Navigation(Loaded(u, r.resp.body), announce)
    else Navigation(Failed, announce + ErrorReport(r))
  }

  /** `loadFromHistory` up to the state change: announce the URL, fetch it as
      it is, and take only a 2x answer; a redirect is reported like an error. */
  function Load(fetch: string -> FetchResult, url: string): Navigation
  {
    var announce := ["\r\n\U{1B}[KLoading " + url + "...\r\n"];
    var r := fetch(url);
    if r.Fetched? && IsSuccess(r.resp.statusCode) then Navigation(Loaded(url, r.resp.body), announce)
    else Navigation(Failed, announce + ErrorReport(r))
  }

  // ---------------------------------------------------------------------
  // Properties

  /** A page is only ever shown from a 2x answer to the URL it is shown
      under, with that answer's body; every failure ends with the key prompt. */
  lemma {:induction false} FollowLoaded(fetch: string -> FetchResult, resolve: (string, string) -> string,
                                        base: string, url: string, fuel: nat)
    ensures var n := Follow(fetch, resolve, base, url, fuel);
      && |n.writes| >= 1
      && (n.outcome.Loaded? ==>
            fetch(n.outcome.url).Fetched? && IsSuccess(fetch(n.outcome.url).resp.statusCode)
            && fetch(n.outcome.url).resp.body == n.outcome.body)
      && (n.outcome.Failed? ==> n.writes[|n.writes| - 1] == AnyKey)
    decreases fuel
  {
    var u := Target(resolve, base, url);
    var r := fetch(u);
    if r.Fetched? && IsRedirect(r.resp.statusCode) && fuel > 0 {
      FollowLoaded(fetch, resolve, base, r.resp.meta, fuel - 1);
    }
  }

  /** More fuel does not change a navigation that finished: the bound on
      redirects only matters for chains that reach it. */
  lemma {:induction false} FollowMoreFuel(fetch: string -> FetchResult, resolve: (string, string) -> string,
                                          base: string, url: string, fuel: nat, more: nat)
    requires fuel <= more
    requires !Follow(fetch, resolve, base, url, fuel).outcome.GaveUp?
    ensures Follow(fetch, resolve, base, url, more) == Follow(fetch, resolve, base, url, fuel)
    decreases fuel
  {
    var u := Target(resolve, base, url);
    var r := fetch(u);
    if r.Fetched? && IsRedirect(r.resp.statusCode) {
      FollowMoreFuel(fetch, resolve, base, r.resp.meta, fuel - 1, more - 1);
    }
  }

  /** A reload shows the page only on a 2x answer; a redirect is an error there. */
  lemma LoadSpec(fetch: string -> FetchResult, url: string)
    ensures var n := Load(fetch, url);
      && (n.outcome.Loaded? <==> fetch(url).Fetched? && IsSuccess(fetch(url).resp.statusCode))
      && (n.outcome.Loaded? ==> n.outcome.url == url && n.outcome.body == fetch(url).resp.body)
      && !n.outcome.GaveUp?
      && (n.outcome.Failed? ==> n.writes[|n.writes| - 1] == AnyKey)
  {
  }
}
