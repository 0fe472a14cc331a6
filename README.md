# Playwright browser provisioning, modelled in Dafny

This project models the browser-provisioning logic of an action that captures
screenshots on a CI runner (`src/browser-cache.ts`). Given a comma-separated list
of browser engines, the provisioner:

1. parses the list (split on `,`, trim each item, drop empty items) and rejects
   an empty result with "No browsers specified";
2. when `GITHUB_ACTIONS` is set, derives the cache key
   `playwright-browsers-<platform>-<arch>-<version>-<sorted browsers joined by '-'>`
   and asks the remote cache to restore the Playwright browser directory under
   that key, falling back to two shorter restore keys;
3. after a hit, checks the directory listing: each requested engine among
   chromium, firefox and webkit must appear inside some entry name;
4. then either installs only the system dependencies (hit and check passed),
   or runs `npx playwright install --with-deps <browsers>` and, in Actions,
   saves the directory under the exact key.

A failed install is the only fatal error after parsing. Restore, dependency
and save failures are swallowed.

The project has four modules:

- `Wrappers` (`wrappers.dfy`): `Option`.
- `Text` (`text.dfy`): the JavaScript string operations used:
  - `split` with a one-character separator, and `join`;
  - `trim`, with the exact WhiteSpace and LineTerminator set;
  - `includes`, proved equal to "occurs at some position".
- `Ordering` (`ordering.dfy`): the default `Array.prototype.sort` on strings.
  It is an insertion-sort function proved sorted and a permutation. Sorted
  permutations are proved unique, so sorting ignores input order and is
  idempotent.
- `BrowserCache` (`browser_cache.dfy`): parsing, key derivation, restore keys,
  the cache directory and the installation check. It also has the step methods
  `GenerateCacheKey`, `RestoreFromCache`, `InstallBrowsers`,
  `InstallDependencies`, `SaveToCache`, `ProvisionBrowsers` and
  `EnsureBrowsersInstalled`.

Everything the provisioner gets from outside is a field of `Env`:

- platform, architecture, home directory and Playwright version;
- the value of `GITHUB_ACTIONS`;
- the listing of the cache directory (`None` when `fs.access` or `fs.readdir`
  throws);
- the outcome of each collaborator call.

The step methods change nothing. They return their result, the browser list
as the step leaves it, and the collaborator calls made, in order (`Action`).
`browsers.sort()` in `generateCacheKey` sorts the caller's array in place. The
model threads that array through the steps as a returned sequence. So in
Actions the install command gets the browsers sorted. Outside Actions it gets
them in the order requested.

`ProvisionBrowsers` is the part of `ensureBrowsersInstalled` that comes after
parsing. Its behaviour is stated once, as the predicate `Provisioned`.
`EnsureBrowsersInstalled` parses and then runs it.

JavaScript truthiness is kept. A `GITHUB_ACTIONS` value of `""` counts as
unset, and a restore that returns `""` counts as a miss.

Two consequences of the code are worth stating:

- A run outside CI succeeds only if the install command succeeds.
- A match on a fallback restore key counts as a cache hit. If the listing then
  passes the substring check, only the dependencies are installed and nothing
  is saved under the exact key (`FallbackMatchCountsAsHit`). So "all requested
  browsers are present" rests on that substring check alone.

## Model

| member | source | states |
|---|---|---|
| `Text.Join` | src/browser-cache.ts:75 | `join('-')`: for a non-empty list, the result is as long as all the pieces together plus one separator between each two |
| `Text.Split` | src/browser-cache.ts:191 | `split(',')` returns at least one piece and no piece contains the separator |
| `Text.JoinOfSplit` | src/browser-cache.ts:191 | joining the pieces of a split with the separator gives back the original string |
| `Text.SplitOfJoin` | src/browser-cache.ts:191 | splitting a join of separator-free pieces (at least one) gives back the pieces |
| `Text.SplitAllBlank` | src/browser-cache.ts:190-193 | every piece is all whitespace exactly when the string holds only separators and whitespace |
| `Text.SkipLeading` | src/browser-cache.ts:192 | the first non-whitespace position at or after `lo`, with everything skipped being whitespace |
| `Text.SkipTrailing` | src/browser-cache.ts:192 | the end of a range once trailing whitespace is dropped, with everything dropped being whitespace |
| `Text.Trim` | src/browser-cache.ts:192 | `trim()` gives a trimmed string, namely the input's middle with only whitespace around it; it is empty exactly when the input is all whitespace |
| `Text.Includes` | src/browser-cache.ts:53 | `entry.includes(name)` holds exactly when `name` occurs at some position of `entry` |
| `Ordering.Le` | src/browser-cache.ts:75 | the default comparison of `sort()` on strings, defined character by character |
| `Ordering.LeIsLexicographic` | src/browser-cache.ts:75 | `Le(a, b)` holds exactly when `a` is a prefix of `b`, or `a` has the smaller character at the first position where the two differ |
| `Ordering.Sort` | src/browser-cache.ts:75 | `browsers.sort()` gives an ordered permutation of its input |
| `Ordering.SortedUnique` | src/browser-cache.ts:75 | two ordered sequences with the same elements (same multiplicities) are equal |
| `Ordering.SortIgnoresOrder` | src/browser-cache.ts:75 | sorting two permutations of one list gives the same list |
| `Ordering.SortIdempotent` | src/browser-cache.ts:75 | sorting an already sorted list changes nothing |
| `BrowserCache.DropEmpty` | src/browser-cache.ts:193 | `filter(Boolean)` keeps exactly the non-empty items, each as many times as it occurs (the multiset of the input with `""` removed); a list with no empty item is unchanged |
| `BrowserCache.DropEmptyAppend` | src/browser-cache.ts:193 | the filter works item by item and keeps the order: filtering `a + b` gives the filtered `a` followed by the filtered `b` |
| `BrowserCache.TrimAll` | src/browser-cache.ts:192 | `map((b) => b.trim())`: same length, and each item is the trim of the piece at the same position |
| `BrowserCache.ParseBrowsers` | src/browser-cache.ts:190-193 | every parsed browser is non-empty, has no leading or trailing whitespace and contains no comma |
| `BrowserCache.ParseRejectsBlank` | src/browser-cache.ts:190-197 | the parse is empty (so the call is rejected) exactly when the input consists only of commas and whitespace, `""` included |
| `BrowserCache.ParseOfJoin` | src/browser-cache.ts:190-193 | parsing the comma-join of clean, comma-free names gives the names back |
| `BrowserCache.CacheKey` | src/browser-cache.ts:71-78 | the key `playwright-browsers-<platform>-<arch>-<version>-<sorted browsers joined by '-'>`; both restore keys are strict prefixes of it |
| `BrowserCache.RestoreKeys` | src/browser-cache.ts:91-94 | two restore keys, and the platform-only key is a strict prefix of the platform+arch key |
| `BrowserCache.CacheKeyIgnoresOrder` | src/browser-cache.ts:71-78 | the cache key is the same for any permutation of the browser list |
| `BrowserCache.CacheKeyOfSorted` | src/browser-cache.ts:75 | computing the key from the already sorted list (as `saveToCache` does) gives the same key |
| `BrowserCache.CacheKeyIdentifiesBrowsers` | src/browser-cache.ts:75-77 | for non-empty lists of dash-free names, keys are equal exactly when the lists hold the same names with the same multiplicities |
| `BrowserCache.DuplicateChangesKey` | src/browser-cache.ts:75-77 | duplicates are not removed: for any non-empty list, repeating a browser lengthens the key by that name and one dash, so the key changes |
| `BrowserCache.SortKeepsSumLen` | src/browser-cache.ts:75 | sorting keeps the total length of the names |
| `BrowserCache.CacheDir` | src/browser-cache.ts:31-39 | `path.join(os.homedir(), ...)`: the cache directory lies strictly below home |
| `BrowserCache.CacheDirLayout` | src/browser-cache.ts:31-39 | the cache directory lies directly under home; its components are `AppData`, `Local`, `ms-playwright` (with `\`) on win32 and `.cache`, `ms-playwright` (with `/`) elsewhere |
| `BrowserCache.AnyIncludes` | src/browser-cache.ts:53 | `entries.some(e => e.includes(name))` holds exactly when some entry contains `name` |
| `BrowserCache.CheckBrowsersInstalled` | src/browser-cache.ts:44-66 | true exactly when the directory could be read and each requested engine among chromium, firefox and webkit is contained in some entry; an unreadable directory gives false |
| `BrowserCache.CheckDependsOnlyOnEngines` | src/browser-cache.ts:52-62 | the check depends only on which of the three engines were requested |
| `BrowserCache.CheckIgnoresOrder` | src/browser-cache.ts:105 | the check on the sorted list equals the check on the list as requested |
| `BrowserCache.CheckIgnoresOtherNames` | src/browser-cache.ts:52-62 | requesting a name other than the three engines imposes no condition |
| `BrowserCache.InActions` | src/browser-cache.ts:84 | `process.env.GITHUB_ACTIONS` is truthy: set and not empty (also line 165) |
| `BrowserCache.RestoreHit` | src/browser-cache.ts:101 | the value returned by `restoreCache` is truthy: a non-empty matched key |
| `BrowserCache.GenerateCacheKey` | src/browser-cache.ts:71-78 | returns the list sorted in place (ordered, same elements) and the key, which equals the key of both the original and the sorted list |
| `BrowserCache.RestoreFromCache` | src/browser-cache.ts:83-122 | outside Actions: `{false,false}`, no call, list untouched; in Actions: list sorted, exactly one restore call with the cache directory, exact key and restore keys; `cacheHit` is the truthiness of the match (a throw or no match gives `{false,false}`); `browsersInstalled` is hit and check; `browsersInstalled` implies `cacheHit` |
| `BrowserCache.InstallBrowsers` | src/browser-cache.ts:127-141 | exactly one `npx playwright install --with-deps <browsers>` call; fails exactly when it throws, with "Failed to install Playwright browsers: " followed by the cause |
| `BrowserCache.InstallDependencies` | src/browser-cache.ts:146-159 | exactly one `npx playwright install-deps` call, whatever its outcome, and no failure reported |
| `BrowserCache.SaveToCache` | src/browser-cache.ts:164-184 | outside Actions no call; in Actions the list is sorted again and one save is made under the exact key; a failing save is not reported |
| `BrowserCache.Provisioned` | src/browser-cache.ts:204-217 | the outcome of the decision sequence after parsing, as a relation between environment, list, status and calls (see `ProvisionBrowsers`) |
| `BrowserCache.ProvisionBrowsers` | src/browser-cache.ts:199-217 | the decision sequence after parsing. Hit and verified: restore then deps only, and success. Otherwise: restore (in Actions), then one full install with the list as sorted by the restore step, then a save when in Actions and the install succeeded. Fails only with the install failure |
| `BrowserCache.EnsureBrowsersInstalled` | src/browser-cache.ts:189-218 | a blank list fails with "No browsers specified" before any call; otherwise the outcome and calls are those of the decision sequence on the parsed list |
| `BrowserCache.NoCacheCallsOutsideActions` | src/browser-cache.ts:84-87 | outside Actions every call made is a process call: no restore and no save |
| `BrowserCache.SaveFollowsSuccessfulInstall` | src/browser-cache.ts:211-215 | a save only happens third, after a restore and a successful full install, under the key the restore looked up, and the run succeeds |
| `BrowserCache.FailedInstallStopsBeforeSave` | src/browser-cache.ts:136-140 | a failed run means the install threw; its message starts with the install prefix and no save was made |
| `BrowserCache.InstallRunsUnlessVerified` | src/browser-cache.ts:204-212 | with hit and check passed, the deps call is made and no full install; otherwise exactly one full install and no deps call |
| `BrowserCache.DepsAndSaveFailuresAreSwallowed` | src/browser-cache.ts:146-184 | the outcomes of the dependency install and of the save change neither the status nor the calls |
| `BrowserCache.FallbackMatchCountsAsHit` | src/browser-cache.ts:91-107 | a non-empty match on a key other than the exact one still counts as a hit; if the listing passes, only deps run and nothing is saved |

The rejection of `""` is also what `src/__tests__/browser-cache.test.ts:17`
expects.

## Left out

- `getPlaywrightVersion` (`require.resolve` introspection and the `'1.54.2'` fallback) is not modelled. The version is a field of `Env`.
- `os.platform()`, `os.arch()` and `os.homedir()` are fields of `Env`.
- `fs.access` and `fs.readdir` are replaced by the listing field: a sequence of entry names, or `None` when either call throws.
- `@actions/cache` and `@actions/exec` are modelled only by their outcomes (match, no match or throw; success or throw) and by the calls recorded in the trace. Their own semantics are not modelled: how keys match, exit codes, and the fact that `exec` throws on a non-zero exit.
- Logger output (info, success and warning lines, emoji) is not modelled. A swallowed failure shows up only as the absence of any effect on the status and trace.
- async/await sequencing is not modelled, nor concurrent CI jobs sharing a cache key. Nothing in the code coordinates them.
- `CacheDir` models `path.join` only for the home directory: an empty home is dropped, and a trailing separator on home is not doubled. It does not resolve `.` or `..`, collapse repeated separators, or turn `/` into `\` inside a win32 home.
- `Text.Trim` uses the WhiteSpace and LineTerminator code points of the Unicode version current when this was written (Zs as of Unicode 15). Later Unicode changes to Zs are not tracked.
- `Ordering.Sort` compares strings by code point. JavaScript compares UTF-16 code units, which orders characters outside the Basic Multilingual Plane differently. `Sort` is also a function, not the in-place algorithm of the runtime. Only the resulting order matters, and that is unique.
- `BrowserCache.CacheKeyIdentifiesBrowsers` is stated only for names without `-`. With a dash, distinct lists can share a key, e.g. `["a-b"]` and `["a", "b"]`.
- The error message on a failed install uses the cause as a string (`reason`). The choice between `error.message` and `String(error)` is folded into that string.
