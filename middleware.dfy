/**
 * middleware.ts: the routing decision taken for every matched request. The
 * environment is reduced to whether VERCEL, POSTGRES_URL and AUTH_SECRET are
 * set to a non-empty value; the session-token lookup (`getToken` followed by
 * the guest-email test) is an input; `encodeURIComponent(request.url)` is
 * the input `encodedUrl`. Redirect targets are the paths resolved against
 * the request's URL.
 */
module Middleware {
  import opened JsText

  datatype Env = Env(vercel: bool, postgresUrl: bool, authSecret: bool)

  /** What `getToken` gave: a token whose email is or is not a guest's, no token, or an exception. */
  datatype TokenLookup = Token(isGuest: bool) | NoToken | LookupFailed

  datatype Decision =
    | RewriteConfigRequired
    | Next
    | Pong
    | Redirect(target: string)

  const ConfigRequiredPath := "/config-required"

  /** `shouldShowConfigRequired` */
  predicate ShouldShowConfigRequired(env: Env, pathname: string) {
    if pathname == ConfigRequiredPath then false
    else if !env.vercel then false
    else !env.postgresUrl || !env.authSecret
  }

  /** The guest sign-in path that returns to the requested URL. */
  function GuestRedirect(encodedUrl: string): string {
    "/api/auth/guest?redirectUrl=" + encodedUrl
  }

  /** `middleware` */
  function Route(env: Env, pathname: string, lookup: TokenLookup, encodedUrl: string): Decision {
    if ShouldShowConfigRequired(env, pathname) then RewriteConfigRequired
    else if !env.authSecret && pathname != ConfigRequiredPath then
      (if env.vercel then RewriteConfigRequired else Next)
    else if StartsWith(pathname, "/ping") then Pong
    else if StartsWith(pathname, "/api/auth") then Next
    else match lookup
      case NoToken => Redirect(GuestRedirect(encodedUrl))
      case Token(isGuest) =>
        if !isGuest && (pathname == "/login" || pathname == "/register") then Redirect("/") else Next
      case LookupFailed =>
        if env.vercel && pathname != ConfigRequiredPath then RewriteConfigRequired else Next
  }

  /** The configuration page itself is never rewritten, so showing it cannot loop. */
  lemma ConfigPageNeverRewritten(env: Env, lookup: TokenLookup, encodedUrl: string)
    ensures !ShouldShowConfigRequired(env, ConfigRequiredPath)
    ensures Route(env, ConfigRequiredPath, lookup, encodedUrl) != RewriteConfigRequired
  {
  }

  /** On Vercel, a missing database URL or auth secret sends every other page to the configuration page. */
  lemma MissingConfigOnVercel(env: Env, pathname: string, lookup: TokenLookup, encodedUrl: string)
    requires env.vercel && (!env.postgresUrl || !env.authSecret) && pathname != ConfigRequiredPath
    ensures Route(env, pathname, lookup, encodedUrl) == RewriteConfigRequired
  {
  }

  /** Off Vercel, a missing auth secret lets the request through untouched, whatever the path or token. */
  lemma MissingSecretOffVercel(env: Env, pathname: string, lookup: TokenLookup, encodedUrl: string)
    requires !env.vercel && !env.authSecret && pathname != ConfigRequiredPath
    ensures Route(env, pathname, lookup, encodedUrl) == Next
  {
  }

  /**
   * Once the configuration checks pass, /ping answers "pong", /api/auth
   * paths pass, a request without a token goes to guest sign-in carrying its
   * URL, a registered user on /login or /register goes home, and a lookup
   * failure rewrites only on Vercel.
   */
  lemma ConfiguredRouting(env: Env, pathname: string, lookup: TokenLookup, encodedUrl: string)
    requires env.authSecret && (env.vercel ==> env.postgresUrl)
    ensures StartsWith(pathname, "/ping") ==> Route(env, pathname, lookup, encodedUrl) == Pong
    ensures !StartsWith(pathname, "/ping") && StartsWith(pathname, "/api/auth") ==>
      Route(env, pathname, lookup, encodedUrl) == Next
    ensures !StartsWith(pathname, "/ping") && !StartsWith(pathname, "/api/auth") ==>
      && (lookup == NoToken ==> Route(env, pathname, lookup, encodedUrl) == Redirect(GuestRedirect(encodedUrl)))
      && (lookup.Token? ==>
            (Route(env, pathname, lookup, encodedUrl) == Redirect("/") <==>
               !lookup.isGuest && (pathname == "/login" || pathname == "/register")))
      && (lookup.Token? && Route(env, pathname, lookup, encodedUrl) != Redirect("/") ==>
            Route(env, pathname, lookup, encodedUrl) == Next)
      && (lookup == LookupFailed ==>
            Route(env, pathname, lookup, encodedUrl) ==
              (if env.vercel && pathname != ConfigRequiredPath then RewriteConfigRequired else Next))
  {
  }

  /** The guest redirect keeps the encoded URL intact, after the fixed query prefix. */
  lemma GuestRedirectCarriesUrl(encodedUrl: string)
    ensures StartsWith(GuestRedirect(encodedUrl), "/api/auth/guest?redirectUrl=")
    ensures GuestRedirect(encodedUrl)[|"/api/auth/guest?redirectUrl="|..] == encodedUrl
  {
  }

  /** Guests are never sent home: a guest token ends either passing through or at a configuration step. */
  lemma GuestsNotRedirectedHome(env: Env, pathname: string, encodedUrl: string)
    ensures Route(env, pathname, Token(true), encodedUrl) != Redirect("/")
  {
  }

  /**
   * The Vercel arm of the missing-secret check is never the one that
   * decides: on Vercel a missing secret has already been caught by the first
   * check, so that check only ever passes requests through.
   */
  lemma SecondCheckOnlyPasses(env: Env, pathname: string)
    requires !ShouldShowConfigRequired(env, pathname) && !env.authSecret && pathname != ConfigRequiredPath
    ensures !env.vercel
  {
  }
}
