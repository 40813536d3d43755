/**
 * The commit fetcher of github/github.py: build the request URL, look the
 * (user, repository) pair up in a process-wide two-level cache, and on a miss
 * turn the HTTP reply into the result and the new cache.
 *
 * The HTTP exchange is an input: `Response` is what the server answers to the
 * GET the fetcher issues on a miss. Calls are sequential.
 */
module Github {
  import opened Wrappers
  import Config

  /** A decoded JSON document; its shape belongs to the remote API and is not inspected. */
  datatype Json =
    | JNull
    | JBool(b: bool)
    | JNumber(n: int)
    | JString(s: string)
    | JArray(items: seq<Json>)
    | JObject(members: seq<(string, Json)>)

  /** user -> (repository -> decoded commit list). */
  type Cache = map<string, map<string, Json>>

  /** The reply to the GET request: its status code and its decoded body. */
  datatype Response = Response(status: int, body: Json)

  datatype Error =
    | ConfigFailure(cause: Config.ConfigError)   // from the base-URL lookup
    | HttpError(status: int)                     // raised by `raise_for_status`

  /** What `get_commits` gives its caller. */
  datatype Outcome =
    | Returned(body: Json)    // a commit list, fetched or cached
    | ReturnedNone            // the function fell off its end (any status below 400 other than 200)
    | Raised(error: Error)

  /** One call: its outcome, the URL it requested (None when it made no request), and the new cache. */
  datatype Step = Step(outcome: Outcome, request: Option<string>, cache: Cache)

  const StatusOk: int := 200
  /** `raise_for_status` raises for this status and above. */
  const FirstErrorStatus: int := 400

  // ---------------------------------------------------------------------
  // Request URL

  /** `<base>/repos/<user>/<repo>/commits`. */
  function RequestUrl(base: string, user: string, repo: string): string {
    base + "/repos/" + user + "/" + repo + "/commits"
  }

  /** Split `s` at its first separator. */
  function SplitAtSep(s: string): (r: Option<(string, string)>)
    ensures r.None? <==> '/' !in s
    ensures r.Some? ==> '/' !in r.value.0 && s == r.value.0 + "/" + r.value.1
  {
    if s == [] then None
    else if s[0] == '/' then Some(([], s[1..]))
    else match SplitAtSep(s[1..])
      case None => None
      case Some((head, rest)) => Some(([s[0]] + head, rest))
  }

  /** Recover (user, repo) from a request URL built on `base`. */
  function SplitRequestUrl(base: string, url: string): (r: Option<(string, string)>)
    ensures r.Some? ==> '/' !in r.value.0 && RequestUrl(base, r.value.0, r.value.1) == url
  {
    var prefix := base + "/repos/";
    var suffix := "/commits";
    if |url| < |prefix| + |suffix| || url[..|prefix|] != prefix || url[|url| - |suffix|..] != suffix then None
    else
      var middle := url[|prefix|..|url| - |suffix|];
      assert url == prefix + middle + suffix;
      SplitAtSep(middle)
  }

  lemma {:induction false} SplitAtFirstSep(head: string, rest: string)
    requires '/' !in head
    ensures SplitAtSep(head + "/" + rest) == Some((head, rest))
  {
    if head != [] {
      var s := head + "/" + rest;
      assert s[0] == head[0] != '/';
      assert s[1..] == head[1..] + "/" + rest;
      SplitAtFirstSep(head[1..], rest);
      assert [head[0]] + head[1..] == head;
    }
  }

  /** The URL determines the user and the repository: `SplitRequestUrl` inverts `RequestUrl`. */
  lemma RequestUrlRoundTrip(base: string, user: string, repo: string)
    requires '/' !in user
    ensures SplitRequestUrl(base, RequestUrl(base, user, repo)) == Some((user, repo))
  {
    var url := RequestUrl(base, user, repo);
    var prefix := base + "/repos/";
    assert url == prefix + (user + "/" + repo) + "/commits";
    assert url[|prefix|..|url| - 8] == user + "/" + repo;
    SplitAtFirstSep(user, repo);
  }

  /** A user containing a separator can make two different cache keys request the same URL. */
  lemma RequestUrlCollision(base: string)
    ensures RequestUrl(base, "a/b", "c") == RequestUrl(base, "a", "b/c")
  {
  }

  /** Different (user, repo) pairs request different URLs. */
  lemma RequestUrlInjective(base: string, user1: string, repo1: string, user2: string, repo2: string)
    requires '/' !in user1 && '/' !in user2
    requires RequestUrl(base, user1, repo1) == RequestUrl(base, user2, repo2)
    ensures user1 == user2 && repo1 == repo2
  {
    RequestUrlRoundTrip(base, user1, repo1);
    RequestUrlRoundTrip(base, user2, repo2);
  }

  // ---------------------------------------------------------------------
  // The cache

  /** `cache[user][repo]`, where a missing key at either level is a miss. */
  function Lookup(c: Cache, user: string, repo: string): (r: Option<Json>)
    ensures r.Some? <==> user in c && repo in c[user]
    ensures r.Some? ==> r.value == c[user][repo]
  {
    if user !in c then None
    else if repo !in c[user] then None
    else Some(c[user][repo])
  }

  /** `cache[user] = {repo: body}`: the user's whole inner map is replaced. */
  function Store(c: Cache, user: string, repo: string, body: Json): Cache {
    c[user := map[repo := body]]
  }

  /** One call of `get_commits(user, repo)` from cache `c`. */
  function Call(c: Cache, user: string, repo: string, env: Config.Environment, resp: Response): Step {
    match Config.GetUrls(env)
    case Failure(e) => Step(Raised(ConfigFailure(e)), None, c)
    case Success(base) =>
      match Lookup(c, user, repo)
      case Some(cached) => Step(Returned(cached), None, c)
      case None =>
        var url := Some(RequestUrl(base, user, repo));
        if resp.status == StatusOk then Step(Returned(resp.body), url, Store(c, user, repo, resp.body))
        else if resp.status >= FirstErrorStatus then Step(Raised(HttpError(resp.status)), url, c)
        else Step(ReturnedNone, url, c)
  }

  /** The two caches agree on every user other than `user`. */
  ghost predicate SameOtherUsers(c: Cache, c': Cache, user: string) {
    forall u :: u != user ==> (u in c <==> u in c') && (u in c ==> c[u] == c'[u])
  }

  /** The base URL is resolved before the cache is consulted: a config failure raises even on a hit. */
  lemma ConfigFailureRaisesBeforeLookup(c: Cache, user: string, repo: string, env: Config.Environment, resp: Response)
    requires Config.GetUrls(env).Failure?
    ensures Call(c, user, repo, env, resp) == Step(Raised(ConfigFailure(Config.GetUrls(env).error)), None, c)
  {
  }

  /** A request is made exactly on a miss, and it goes to the URL built from the base URL. */
  lemma RequestExactlyOnMiss(c: Cache, user: string, repo: string, env: Config.Environment, resp: Response, base: string)
    requires Config.GetUrls(env) == Success(base)
    ensures var s := Call(c, user, repo, env, resp);
      s.request == if user in c && repo in c[user] then None else Some(RequestUrl(base, user, repo))
  {
  }

  /** A hit returns the cached document and leaves the cache as it was. */
  lemma HitReturnsCached(c: Cache, user: string, repo: string, env: Config.Environment, resp: Response)
    requires Config.GetUrls(env).Success?
    requires user in c && repo in c[user]
    ensures Call(c, user, repo, env, resp) == Step(Returned(c[user][repo]), None, c)
  {
  }

  /** A miss answered with 200 returns the body and leaves exactly `{repo: body}` under the user. */
  lemma OkMissReplacesUserEntry(c: Cache, user: string, repo: string, env: Config.Environment, resp: Response)
    requires Config.GetUrls(env).Success?
    requires user !in c || repo !in c[user]
    requires resp.status == 200
    ensures var s := Call(c, user, repo, env, resp);
      && s.outcome == Returned(resp.body)
      && user in s.cache && s.cache[user] == map[repo := resp.body]
      && s.cache.Keys == c.Keys + {user}
  {
  }

  /**
   * A miss answered with any other status returns no document and leaves the cache as it was:
   * it raises from status 400 on, and below that the function falls off its end and returns None.
   */
  lemma FailedMissKeepsCache(c: Cache, user: string, repo: string, env: Config.Environment, resp: Response)
    requires Config.GetUrls(env).Success?
    requires user !in c || repo !in c[user]
    requires resp.status != 200
    ensures var s := Call(c, user, repo, env, resp);
      && s.cache == c
      && !s.outcome.Returned?
      && s.outcome == (if resp.status >= 400 then Raised(HttpError(resp.status)) else ReturnedNone)
  {
  }

  /** No call ever touches the entries of another user. */
  lemma OtherUsersUntouched(c: Cache, user: string, repo: string, env: Config.Environment, resp: Response)
    ensures SameOtherUsers(c, Call(c, user, repo, env, resp).cache, user)
  {
  }

  /** A pair once fetched with 200 is served from the cache on the next call, whatever the server would say. */
  lemma SecondCallServedFromCache(c: Cache, user: string, repo: string, env: Config.Environment,
                                   first: Response, second: Response)
    requires Config.GetUrls(env).Success?
    requires first.status == 200
    ensures var s1 := Call(c, user, repo, env, first);
      var s2 := Call(s1.cache, user, repo, env, second);
      && s1.outcome.Returned?
      && s2 == Step(s1.outcome, None, s1.cache)
  {
  }

  // ---------------------------------------------------------------------
  // The store as written drops the user's other repositories

  /** Fetching a second repository of a user forgets the first one. */
  lemma StoreDropsSibling(env: Config.Environment, a: Json, b: Json)
    requires Config.GetUrls(env).Success?
    ensures var s1 := Call(map[], "u", "r1", env, Response(200, a));
      var s2 := Call(s1.cache, "u", "r2", env, Response(200, b));
      && Lookup(s1.cache, "u", "r1") == Some(a)
      && Lookup(s2.cache, "u", "r1") == None
  {
  }

  /** Add `repo` to the user's inner map, keeping the user's other repositories. */
  function Merge(c: Cache, user: string, repo: string, body: Json): Cache {
    var inner := if user in c then c[user] else map[];
    c[user := inner[repo := body]]
  }

  /** `Call` with `Merge` in place of `Store`. */
  function CallCorrected(c: Cache, user: string, repo: string, env: Config.Environment, resp: Response): Step {
    var s := Call(c, user, repo, env, resp);
    if s.request.Some? && s.outcome.Returned? then s.(cache := Merge(c, user, repo, s.outcome.body)) else s
  }

  /** With `Merge`, every entry cached before a call is still there, unchanged, after it. */
  lemma CorrectedKeepsEarlierEntries(c: Cache, user: string, repo: string, env: Config.Environment, resp: Response,
                                     u: string, r: string)
    requires Lookup(c, u, r).Some?
    ensures Lookup(CallCorrected(c, user, repo, env, resp).cache, u, r) == Lookup(c, u, r)
  {
  }

  /** With `Merge`, a fetched pair is cached and the call otherwise behaves as written. */
  lemma CorrectedAgreesOnResult(c: Cache, user: string, repo: string, env: Config.Environment, resp: Response)
    ensures var fixed := CallCorrected(c, user, repo, env, resp);
      var written := Call(c, user, repo, env, resp);
      && fixed.outcome == written.outcome
      && fixed.request == written.request
      && (written.outcome.Returned? ==> Lookup(fixed.cache, user, repo) == Some(written.outcome.body))
  {
  }

  /** With `Merge`, fetching a second repository of a user keeps the first one. */
  lemma CorrectedKeepsSibling(env: Config.Environment, a: Json, b: Json)
    requires Config.GetUrls(env).Success?
    ensures var s1 := CallCorrected(map[], "u", "r1", env, Response(200, a));
      var s2 := CallCorrected(s1.cache, "u", "r2", env, Response(200, b));
      && Lookup(s2.cache, "u", "r1") == Some(a)
      && Lookup(s2.cache, "u", "r2") == Some(b)
  {
  }

  // ---------------------------------------------------------------------
  // The fetcher, owning the cache

  class CommitFetcher {
    var cache: Cache

    constructor ()
      ensures cache == map[]
    {
      cache := map[];
    }

    /** `get_commits(user, repo)`; `resp` is the server's reply should a request be made. */
    method GetCommits(user: string, repo: string, env: Config.Environment, resp: Response)
      returns (outcome: Outcome, request: Option<string>)
      modifies this
      ensures Step(outcome, request, cache) == Call(old(cache), user, repo, env, resp)
      ensures SameOtherUsers(old(cache), cache, user)
    {
      var base := Config.GetUrls(env);
      if base.Failure? {
        return Raised(ConfigFailure(base.error)), None;
      }
      var url := RequestUrl(base.value, user, repo);
      if user in cache && repo in cache[user] {
        return Returned(cache[user][repo]), None;
      }
      request := Some(url);
      if resp.status == StatusOk {
        cache := cache[user := map[repo := resp.body]];
        outcome := Returned(resp.body);
      } else if resp.status >= FirstErrorStatus {
        outcome := Raised(HttpError(resp.status));
      } else {
        outcome := ReturnedNone;
      }
    }
  }
}
