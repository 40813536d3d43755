# Commit fetcher with a two-level cache, in Dafny

This project models the core of `github/github.py`. That file is a small client for a code-hosting API. It works in two steps:

- The config loader (`get_urls`, `__get_config`) picks the folder that should hold `conf/config.properties`. The first candidate is `PYTHONHOME` if that is set, and otherwise the parent of the interpreter's directory. If the first candidate has no `conf/config.properties`, the loader uses the module's own directory followed by `/../` instead. Only one first candidate is ever tried: a `PYTHONHOME` without the file goes straight to the module fallback. From the chosen file the loader reads the API base URL, stored under `github.url` in the `DEFAULT` section.
- The commit fetcher (`get_commits`) builds `<base>/repos/<user>/<repo>/commits`. It then looks the pair up in a process-wide cache shaped user → (repository → commit list). On a miss it turns the HTTP reply into the result. Only a 200 reply is stored in the cache; any other status leaves it unchanged.

Modules:

- `Wrappers` (`wrappers.dfy`): `Option` and `Result`.
- `PosixPath` (`posix_path.dfy`): POSIX `os.path.dirname`, as pure functions with lemmas about the paths the loader uses.
- `Config` (`config.dfy`): the loader. It is a pure function of an `Environment` with four parts:
  - the `PYTHONHOME` value, if set;
  - the interpreter path;
  - the module path;
  - every config path that exists, each with the document that `ConfigParser.read` yields from it (the empty document when the path cannot be read).
- `Github` (`github.dfy`): the request URL and its inverse, and the cache lookup and store. `Call` is the specification of one `get_commits` call. The class `CommitFetcher` owns the cache as a `map` field, and its method `GetCommits` updates that field in place. `GetCommits` is proved equal to `Call`, and the lemmas state what `Call` promises.

The HTTP exchange is an input. `Response(status, body)` is what the server answers to the GET that a miss issues. `Call` reports the URL it requested, or `None` when it made no request, so "a hit does not touch the network" can be stated directly.

Points where the behaviour is easy to misread, and where the model follows the code:

- `get_urls` runs before the cache is consulted (line 35). A config failure therefore raises even when the pair is cached (`ConfigFailureRaisesBeforeLookup`).
- A non-200 reply goes through `raise_for_status`. aiohttp raises there only for statuses of 400 and above. For any other status below 400, `get_commits` falls off its end and returns `None`. This is `Outcome.ReturnedNone`. The cache is unchanged in every non-200 case.
- `ConfigParser.read` silently skips a file it cannot read, and the `DEFAULT` section always exists. So a missing file and a missing key both end in `KeyError('github.url')`.
- The URL is made by plain concatenation (line 35). It identifies the (user, repo) pair only when the user contains no `/`, which is the domain of `RequestUrlRoundTrip` and `RequestUrlInjective`. The source itself accepts any user: `a/b` with repository `c` and `a` with repository `b/c` are different cache keys but request the same URL (`RequestUrlCollision`).
- Line 21 takes `dirname` twice of the interpreter path. For `/usr/bin/python3` that gives `/usr`, the parent of the interpreter's directory (`InterpreterRootConfigUsed`).

## Model

| member | source | states |
|---|---|---|
| `PosixPath.Dirname` | github/github.py:21 | the directory part is a prefix of the path, and it is empty exactly when the path has no `/` |
| `PosixPath.DirnameOfChild` | github/github.py:24 | the directory of `dir/name` is `dir` (for a non-empty `dir` with no trailing `/` and a `name` with no `/`) |
| `PosixPath.DirnameOfRootChild` | github/github.py:21 | the directory of `/name` is `/` |
| `PosixPath.GrandparentOf` | github/github.py:21 | `dirname(dirname(root/bin/exe))` is `root` |
| `Config.InstallRoot` | github/github.py:18-21 | definition (no contract of its own): `PYTHONHOME` if set, else `dirname(dirname(executable))`; its properties are in `PythonHomeConfigUsed`, `InterpreterRootConfigUsed` and `InterpreterAtTopLevelConfigUsed` |
| `Config.ModuleFallback` | github/github.py:24-25 | definition (no contract of its own): the module's directory followed by `/../`; its property is in `ModuleFallbackUsed` |
| `Config.ConfigFolder` | github/github.py:17-25 | definition (no contract of its own) of the folder selection; its properties are in `FolderHoldsConfigOrFallsBack` |
| `Config.ReadConfig` | github/github.py:29-30 | definition (no contract of its own): a path that does not exist reads as the empty document; its consequences are in `MissingConfigRaises` |
| `Config.GetUrls` | github/github.py:11-14 | definition (no contract of its own) of `get_urls`; its properties are in `UrlComesFromChosenFile`, `MissingConfigRaises` and `MissingKeyRaises` |
| `Github.RequestUrl` | github/github.py:35 | definition (no contract of its own) of the request URL; its properties are in `RequestUrlRoundTrip`, `RequestUrlInjective` and `RequestUrlCollision` |
| `Github.Store` | github/github.py:52 | definition (no contract of its own) of the store as written; its properties are in `OkMissReplacesUserEntry` and `StoreDropsSibling` |
| `Github.Call` | github/github.py:34-57 | definition (no contract of its own) of one `get_commits` call; its properties are in `ConfigFailureRaisesBeforeLookup`, `RequestExactlyOnMiss`, `HitReturnsCached`, `OkMissReplacesUserEntry`, `FailedMissKeepsCache`, `OtherUsersUntouched` and `SecondCallServedFromCache` |
| `Config.DefaultValue` | github/github.py:13-14 | a value is returned exactly when the `DEFAULT` section holds the key, and it is that section's value; otherwise `KeyError(key)` |
| `Config.FolderHoldsConfigOrFallsBack` | github/github.py:17-25 | the chosen folder holds a config file or is the module fallback; the first candidate is chosen exactly when it holds a config file, and otherwise the module fallback is chosen |
| `Config.UrlComesFromChosenFile` | github/github.py:11-14 | `get_urls` returns `url` exactly when the file under the chosen folder maps `github.url` to `url` in `DEFAULT` |
| `Config.PythonHomeConfigUsed` | github/github.py:18-19 | when `PYTHONHOME` is set and its folder configures `url`, that folder is chosen and `url` is returned |
| `Config.InterpreterRootConfigUsed` | github/github.py:20-21 | without `PYTHONHOME`, an interpreter at `root/bin/exe` selects `root`, and its configured URL is returned |
| `Config.InterpreterAtTopLevelConfigUsed` | github/github.py:20-21 | without `PYTHONHOME`, an interpreter at `/bin/exe` selects `/`, and its configured URL is returned |
| `Config.ModuleFallbackUsed` | github/github.py:23-25 | when the first candidate has no config file, a module at `pkg/name` selects `pkg/../`, and its configured URL is returned |
| `Config.MissingConfigRaises` | github/github.py:23-30 | when neither candidate holds a config file, the lookup raises `KeyError('github.url')` |
| `Config.MissingKeyRaises` | github/github.py:13-14 | a config file without `github.url` in `DEFAULT` raises `KeyError('github.url')` |
| `Github.SplitRequestUrl` | github/github.py:35 | whatever it splits off rebuilds the URL exactly and gives a user with no `/` |
| `Github.RequestUrlRoundTrip` | github/github.py:35 | for users without `/`, splitting the built URL gives back the user and repository: nothing else is added to the URL |
| `Github.RequestUrlCollision` | github/github.py:35 | for users containing `/`, the keys (`a/b`, `c`) and (`a`, `b/c`) request the same URL |
| `Github.RequestUrlInjective` | github/github.py:35 | for users without `/`, different (user, repo) pairs on one base URL request different URLs |
| `Github.Lookup` | github/github.py:44 | a hit exactly when both the user and the repository keys are present, giving `cache[user][repo]`; a missing key at either level is a miss |
| `Github.ConfigFailureRaisesBeforeLookup` | github/github.py:35 | a config failure is raised with no request and no cache change, even on a hit |
| `Github.RequestExactlyOnMiss` | github/github.py:43-49 | a request is made exactly on a miss, to `<base>/repos/<user>/<repo>/commits` |
| `Github.HitReturnsCached` | github/github.py:43-46 | a hit returns `cache[user][repo]`, makes no request, and leaves the cache unchanged |
| `Github.OkMissReplacesUserEntry` | github/github.py:50-53 | a miss answered with 200 returns the body, and afterwards the user's entry is exactly `{repo: body}` |
| `Github.FailedMissKeepsCache` | github/github.py:54-55 | a miss answered with another status leaves the cache unchanged; the outcome is `HttpError(status)` when status >= 400 and `ReturnedNone` (the fall-through `None`) otherwise |
| `Github.OtherUsersUntouched` | github/github.py:52 | no call adds, removes or changes the entry of any user other than its own |
| `Github.SecondCallServedFromCache` | github/github.py:43-53 | after a 200 fetch, a second call for the same pair returns the same result with no request and no cache change |
| `Github.StoreDropsSibling` | github/github.py:52 | fetching `u/r2` after `u/r1` leaves `u/r1` no longer cached |
| `Github.CorrectedKeepsEarlierEntries` | github/github.py:52 | with the merging store, every previously cached pair keeps its value across any call |
| `Github.CorrectedAgreesOnResult` | github/github.py:50-53 | the merging store changes neither the outcome nor the request, and a fetched pair is cached |
| `Github.CorrectedKeepsSibling` | github/github.py:52 | with the merging store, `u/r1` and `u/r2` are both cached after fetching both |
| `Github.CommitFetcher.constructor` | github/github.py:8 | the cache starts empty |
| `Github.CommitFetcher.GetCommits` | github/github.py:34-57 | the result, the request made and the new cache are those of `Call` on the old cache; other users' entries are unchanged |

## Findings

| source | as written | input that shows it | evidently intended | confidence | as-written member | corrected member |
|---|---|---|---|---|---|---|
| github/github.py:52 | a 200 reply replaces the user's whole inner map with `{repo: body}` | `get_commits('u', 'r1')` and then `get_commits('u', 'r2')`, both answered with 200 | `u/r1` stays cached beside `u/r2` | high; not executed | `Github.StoreDropsSibling` | `Github.CorrectedKeepsEarlierEntries` |

`CommitFetcher.GetCommits` models the store as written. `Merge` and `CallCorrected` give the corrected behaviour next to it, and the corrected lemmas are proved about them.

## Left out

- The HTTP session: `aiohttp.ClientSession`, the GET itself, `resp.json()` and closing the session. The reply is the `Response` input. A body that fails to decode, and transport errors, are not modelled.
- The proxy taken from `http_proxy` (lines 38-41). It only feeds the request and affects neither the result nor the cache.
- Logging and the "Load config from folder" message (lines 7, 27, 45).
- `async`/`await` and interleaved calls. Calls are sequential, so the last-writer-wins race between two concurrent misses is not modelled.
- INI parsing by `configparser`: a config file is given already parsed, and option-name case folding is not modelled. Parse errors from a malformed file are not modelled.
- Windows paths: `PosixPath.Dirname` is the POSIX `os.path.dirname`. The Windows version, which also splits on `\` and keeps drive letters, is not modelled.
- `os.path.exists`: the model checks whether the literal path string is in the file map, which holds every path that exists. A path that exists but cannot be read, such as a directory or a file without read permission, is in the map with the empty document. The loader then keeps that folder and raises `KeyError('github.url')`, as the source does. No path normalisation is done, so `a/..//conf` and `conf` are different paths.
- Github.SecondCallServedFromCache: does not model aliasing of the cached document. Lines 46 and 53 return the very object that line 52 stores, so a caller that mutates the returned list changes what every later hit returns. `Json` is a value, so the model cannot show this, and the lemma holds only for callers that do not mutate the result.
- Config.DefaultValue: does not model `configparser` interpolation. Reading `github.url` (line 14) expands `%(name)s` references and raises `InterpolationSyntaxError` on a lone `%`, as in a percent-encoded URL. The model returns the raw string and has no such error.
- A missing interpreter path: `sys.executable` can be `None`, and then `os.path.dirname` at line 21 raises `TypeError`. `Environment.executable` is always a string, so this failure is not modelled.
- JSON numbers are integers in `Json`. The body is never inspected, so this does not affect any property.
- `setup.py` (packaging) and `tests/test_github_api.py` (a live-network test that expects 30 commits) are not part of this model.
