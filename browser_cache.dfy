/**
 * The browser provisioner: parse the requested engines, derive the cache key,
 * restore the browser directory from the remote cache when running under
 * GitHub Actions, check the restored directory, and either install only the
 * system dependencies or run the full install and save the cache.
 *
 * Everything the provisioner learns from the outside world is a field of Env:
 * platform, architecture, home directory and Playwright version, the value of
 * GITHUB_ACTIONS, the listing of the cache directory, and the outcome of each
 * call to the cache and process collaborators. The step methods return the
 * calls they make as a trace of Actions.
 */
module BrowserCache {
  import opened Wrappers
  import opened Text
  import opened Ordering

  const Namespace := "playwright-browsers-"
  const Engines: seq<string> := ["chromium", "firefox", "webkit"]
  const NoBrowsersMessage := "No browsers specified"
  const InstallFailurePrefix := "Failed to install Playwright browsers: "

  // ---------------------------------------------------------------------------
  // Parsing the comma-separated browser list
  // ---------------------------------------------------------------------------

  /** Array.prototype.filter(Boolean) on strings: drops the empty ones and keeps the rest in order. */
  function DropEmpty(xs: seq<string>): (r: seq<string>)
    ensures forall k :: 0 <= k < |r| ==> r[k] != ""
    ensures forall x :: x in r <==> x in xs && x != ""
    ensures multiset(r) == multiset(xs)["" := 0]
    ensures (forall k :: 0 <= k < |xs| ==> xs[k] != "") ==> r == xs
  {
    if xs == [] then []
    else
      assert xs == [xs[0]] + xs[1..];
      var rest := DropEmpty(xs[1..]);
      if xs[0] == "" then rest else [xs[0]] + rest
  }

  /** filter works item by item: what it keeps of a + b is what it keeps of a, then what it keeps of b. */
  lemma {:induction false} DropEmptyAppend(a: seq<string>, b: seq<string>)
    ensures DropEmpty(a + b) == DropEmpty(a) + DropEmpty(b)
  {
    if a == [] {
      assert a + b == b;
    } else {
      assert (a + b)[0] == a[0] && (a + b)[1..] == a[1..] + b;
      DropEmptyAppend(a[1..], b);
    }
  }

  /** parts.map((b) => b.trim()) */
  function TrimAll(parts: seq<string>): (r: seq<string>)
    ensures |r| == |parts| && forall k :: 0 <= k < |parts| ==> r[k] == Trim(parts[k])
  {
    if parts == [] then [] else [Trim(parts[0])] + TrimAll(parts[1..])
  }

  /** browsersInput.split(',').map(trim).filter(Boolean): every item is non-empty, has no surrounding whitespace and holds no comma. */
  function ParseBrowsers(input: string): (r: seq<string>)
    ensures forall b :: b in r ==> b != "" && Trimmed(b) && ',' !in b
  {
    var parts := Split(input, ',');
    var trimmed := TrimAll(parts);
    assert forall k :: 0 <= k < |trimmed| ==> ',' !in trimmed[k] by {
      forall k | 0 <= k < |trimmed| ensures ',' !in trimmed[k] {
        TrimKeepsOut(parts[k], ',');
      }
    }
    DropEmpty(trimmed)
  }

  /** Trimming a piece that lacks c gives a piece that lacks c. */
  lemma TrimKeepsOut(piece: string, c: char)
    requires c !in piece
    ensures c !in Trim(piece)
  {
    var r := Trim(piece);
    var i: nat :| PaddedAt(piece, r, i);
    assert forall j :: 0 <= j < |r| ==> r[j] == piece[i + j];
  }

  /** The parse is empty exactly when the input holds nothing but commas and whitespace. */
  lemma ParseRejectsBlank(input: string)
    ensures ParseBrowsers(input) == [] <==> AllSeparatorOrWhitespace(input, ',')
  {
    var parts := Split(input, ',');
    var trimmed := TrimAll(parts);
    SplitAllBlank(input, ',');
    if ParseBrowsers(input) == [] {
      forall k | 0 <= k < |parts| ensures AllWhitespace(parts[k]) {
        assert trimmed[k] in trimmed;
      }
    } else {
      var b := ParseBrowsers(input)[0];
      assert b in trimmed;
      var k :| 0 <= k < |parts| && trimmed[k] == b;
      assert !AllWhitespace(parts[k]);
    }
  }

  /** Joining clean, comma-free names with commas and parsing the result gives the names back. */
  lemma ParseOfJoin(names: seq<string>)
    requires names != []
    requires forall k :: 0 <= k < |names| ==> names[k] != "" && Trimmed(names[k]) && ',' !in names[k]
    ensures ParseBrowsers(Join(names, ',')) == names
  {
    SplitOfJoin(names, ',');
    TrimAllFixesTrimmed(names);
  }

  lemma {:induction false} TrimAllFixesTrimmed(names: seq<string>)
    requires forall k :: 0 <= k < |names| ==> Trimmed(names[k])
    ensures TrimAll(names) == names
  {
    if names != [] {
      TrimmedIsFixed(names[0]);
      TrimAllFixesTrimmed(names[1..]);
      assert names == [names[0]] + names[1..];
    }
  }

  // ---------------------------------------------------------------------------
  // Cache key and restore keys
  // ---------------------------------------------------------------------------

  /**
   * playwright-browsers-<platform>-<arch>-<version>-<browsers sorted and joined by '-'>.
   * Both restore keys are strict prefixes of it.
   */
  function CacheKey(platform: string, arch: string, version: string, browsers: seq<string>): (r: string)
    ensures var keys := RestoreKeys(platform, arch);
            && keys[0] <= r && |keys[0]| < |r|
            && keys[1] <= r && |keys[1]| < |r|
  {
    Namespace + platform + "-" + arch + "-" + version + "-" + Join(Sort(browsers), '-')
  }

  /**
   * The fallback keys handed to the cache restore: same platform and
   * architecture, then same platform. The second is a strict prefix of the first.
   */
  function RestoreKeys(platform: string, arch: string): (r: seq<string>)
    ensures |r| == 2 && r[1] <= r[0] && |r[1]| < |r[0]|
  {
    [Namespace + platform + "-" + arch + "-", Namespace + platform + "-"]
  }

  /** The key does not depend on the order in which browsers were requested. */
  lemma CacheKeyIgnoresOrder(platform: string, arch: string, version: string, b1: seq<string>, b2: seq<string>)
    requires multiset(b1) == multiset(b2)
    ensures CacheKey(platform, arch, version, b1) == CacheKey(platform, arch, version, b2)
  {
    SortIgnoresOrder(b1, b2);
  }

  /** Recomputing the key from the already sorted list gives the same key. */
  lemma CacheKeyOfSorted(platform: string, arch: string, version: string, browsers: seq<string>)
    ensures CacheKey(platform, arch, version, Sort(browsers)) == CacheKey(platform, arch, version, browsers)
  {
    SortIdempotent(browsers);
  }

  predicate NoDash(names: seq<string>) {
    forall k :: 0 <= k < |names| ==> '-' !in names[k]
  }

  /**
   * For non-empty lists of names without '-', two lists get the same key
   * exactly when they hold the same names the same number of times.
   */
  lemma CacheKeyIdentifiesBrowsers(platform: string, arch: string, version: string, b1: seq<string>, b2: seq<string>)
    requires b1 != [] && b2 != [] && NoDash(b1) && NoDash(b2)
    ensures CacheKey(platform, arch, version, b1) == CacheKey(platform, arch, version, b2)
            <==> multiset(b1) == multiset(b2)
  {
    if multiset(b1) == multiset(b2) {
      CacheKeyIgnoresOrder(platform, arch, version, b1, b2);
    } else {
      var s1, s2 := Sort(b1), Sort(b2);
      assert |s1| == |multiset(b1)| && |s2| == |multiset(b2)|;
      forall k | 0 <= k < |s1| ensures '-' !in s1[k] { SortKeepsElements(b1, k); }
      forall k | 0 <= k < |s2| ensures '-' !in s2[k] { SortKeepsElements(b2, k); }
      SplitOfJoin(s1, '-');
      SplitOfJoin(s2, '-');
      assert Join(s1, '-') != Join(s2, '-');
      var prefix := Namespace + platform + "-" + arch + "-" + version + "-";
      PrefixKeepsDifference(prefix, Join(s1, '-'), Join(s2, '-'));
    }
  }

  lemma PrefixKeepsDifference(prefix: string, x: string, y: string)
    requires x != y
    ensures prefix + x != prefix + y
  {
    assert (prefix + x)[|prefix|..] == x && (prefix + y)[|prefix|..] == y;
  }

  /** Duplicates are kept: asking for a browser twice makes the key longer by that name and one dash. */
  lemma DuplicateChangesKey(platform: string, arch: string, version: string, browsers: seq<string>)
    requires browsers != []
    ensures |CacheKey(platform, arch, version, browsers + [browsers[0]])|
            == |CacheKey(platform, arch, version, browsers)| + |browsers[0]| + 1
    ensures CacheKey(platform, arch, version, browsers + [browsers[0]]) != CacheKey(platform, arch, version, browsers)
  {
    var b := browsers[0];
    var longer := [b] + browsers;
    assert multiset(browsers + [b]) == multiset(longer);
    CacheKeyIgnoresOrder(platform, arch, version, browsers + [b], longer);
    assert longer[1..] == browsers;
    SortKeepsSumLen(longer);
    SortKeepsSumLen(browsers);
    var s1, s2 := Sort(longer), Sort(browsers);
    assert |s1| == |multiset(longer)| == |longer|;
    assert |s2| == |multiset(browsers)| == |browsers|;
    assert |Join(s1, '-')| == |Join(s2, '-')| + |b| + 1;
  }

  /** Sorting keeps the total length of the names. */
  lemma {:induction false} SortKeepsSumLen(xs: seq<string>)
    ensures SumLen(Sort(xs)) == SumLen(xs)
  {
    if xs != [] {
      SortKeepsSumLen(xs[1..]);
      InsertAddsLen(xs[0], Sort(xs[1..]));
    }
  }

  lemma {:induction false} InsertAddsLen(x: string, xs: seq<string>)
    ensures SumLen(Insert(x, xs)) == |x| + SumLen(xs)
  {
    if xs == [] {
      assert Insert(x, xs) == [x] && [x][1..] == [];
    } else if Le(x, xs[0]) {
      assert ([x] + xs)[1..] == xs;
    } else {
      InsertAddsLen(x, xs[1..]);
      assert ([xs[0]] + Insert(x, xs[1..]))[1..] == Insert(x, xs[1..]);
    }
  }

  // ---------------------------------------------------------------------------
  // The install cache directory
  // ---------------------------------------------------------------------------

  function PathSeparator(platform: string): char {
    if platform == "win32" then '\\' else '/'
  }

  /** path.join(home, ...) with AppData/Local/ms-playwright on win32 and .cache/ms-playwright elsewhere: a directory strictly below home. */
  function CacheDir(platform: string, home: string): (r: string)
    ensures home <= r && |home| < |r|
  {
    var sep := PathSeparator(platform);
    var tail := if platform == "win32" then Join(["AppData", "Local", "ms-playwright"], sep)
                else Join([".cache", "ms-playwright"], sep);
    if home == [] then tail
    else if home[|home| - 1] == sep then home + tail
    else home + [sep] + tail
  }

  /** The cache directory lies directly under home, and its remaining components depend only on whether the platform is win32. */
  lemma CacheDirLayout(platform: string, home: string)
    requires home != [] && home[|home| - 1] != PathSeparator(platform)
    ensures var dir := CacheDir(platform, home); var sep := PathSeparator(platform);
            && |dir| > |home| && dir[..|home|] == home && dir[|home|] == sep
            && (platform == "win32" ==> sep == '\\' && Split(dir[|home| + 1..], sep) == ["AppData", "Local", "ms-playwright"])
            && (platform != "win32" ==> sep == '/' && Split(dir[|home| + 1..], sep) == [".cache", "ms-playwright"])
  {
    var dir := CacheDir(platform, home);
    var sep := PathSeparator(platform);
    var parts := if platform == "win32" then ["AppData", "Local", "ms-playwright"] else [".cache", "ms-playwright"];
    var tail := Join(parts, sep);
    assert dir == home + [sep] + tail;
    assert dir[|home| + 1..] == tail;
    assert forall k :: 0 <= k < |parts| ==> sep !in parts[k];
    SplitOfJoin(parts, sep);
  }

  // ---------------------------------------------------------------------------
  // Checking the restored directory
  // ---------------------------------------------------------------------------

  /** Some directory entry contains name. */
  ghost predicate EngineFound(name: string, entries: seq<string>) {
    exists entry :: entry in entries && Occurs(name, entry)
  }

  /** entries.some((entry) => entry.includes(name)) */
  function AnyIncludes(entries: seq<string>, name: string): (r: bool)
    ensures r <==> EngineFound(name, entries)
  {
    if entries == [] then false
    else
      assert forall e :: e in entries <==> e == entries[0] || e in entries[1..];
      Includes(entries[0], name) || AnyIncludes(entries[1..], name)
  }

  /**
   * checkBrowsersInstalled over the listing of the cache directory (None when
   * the directory cannot be accessed or read): every requested engine among
   * chromium, firefox and webkit must appear inside some entry name.
   */
  function CheckBrowsersInstalled(browsers: seq<string>, listing: Option<seq<string>>): (r: bool)
    ensures r <==> listing.Some? && forall e :: e in Engines && e in browsers ==> EngineFound(e, listing.value)
  {
    match listing
    case None => false
    case Some(entries) =>
      var hasChromium := if "chromium" in browsers then AnyIncludes(entries, "chromium") else true;
      var hasFirefox := if "firefox" in browsers then AnyIncludes(entries, "firefox") else true;
      var hasWebkit := if "webkit" in browsers then AnyIncludes(entries, "webkit") else true;
      hasChromium && hasFirefox && hasWebkit
  }

  /** The check looks only at which of the three engines were requested. */
  lemma CheckDependsOnlyOnEngines(b1: seq<string>, b2: seq<string>, listing: Option<seq<string>>)
    requires forall e :: e in Engines ==> (e in b1 <==> e in b2)
    ensures CheckBrowsersInstalled(b1, listing) == CheckBrowsersInstalled(b2, listing)
  {
  }

  /** Reordering the requested browsers does not change the check. */
  lemma CheckIgnoresOrder(b1: seq<string>, b2: seq<string>, listing: Option<seq<string>>)
    requires multiset(b1) == multiset(b2)
    ensures CheckBrowsersInstalled(b1, listing) == CheckBrowsersInstalled(b2, listing)
  {
    forall e | e in Engines ensures e in b1 <==> e in b2 {
      assert e in b1 <==> e in multiset(b1);
      assert e in b2 <==> e in multiset(b2);
    }
    CheckDependsOnlyOnEngines(b1, b2, listing);
  }

  /** A requested name other than chromium, firefox or webkit imposes no condition. */
  lemma CheckIgnoresOtherNames(browsers: seq<string>, name: string, listing: Option<seq<string>>)
    requires name !in Engines
    ensures CheckBrowsersInstalled(browsers + [name], listing) == CheckBrowsersInstalled(browsers, listing)
  {
    CheckDependsOnlyOnEngines(browsers + [name], browsers, listing);
  }

  // ---------------------------------------------------------------------------
  // The environment, the collaborators' outcomes and the action trace
  // ---------------------------------------------------------------------------

  /** What cache.restoreCache does: return the matched key, return nothing, or throw. */
  datatype RestoreOutcome = Matched(key: string) | NotFound | RestoreThrows(reason: string)

  /** What exec.exec does: finish, or throw. */
  datatype ExecOutcome = ExecSucceeds | ExecThrows(reason: string)

  /** What cache.saveCache does: finish, or throw. */
  datatype SaveOutcome = SaveSucceeds | SaveThrows(reason: string)

  datatype Env = Env(
    platform: string,
    arch: string,
    home: string,
    version: string,
    githubActions: Option<string>,    // the GITHUB_ACTIONS environment variable
    listing: Option<seq<string>>,     // entries of the cache directory; None when it cannot be accessed or read
    restore: RestoreOutcome,
    install: ExecOutcome,             // npx playwright install --with-deps ...
    deps: ExecOutcome,                // npx playwright install-deps
    save: SaveOutcome)

  /** The calls made to the cache and process collaborators, in order. */
  datatype Action =
    | RestoreCache(paths: seq<string>, primaryKey: string, restoreKeys: seq<string>)
    | SaveCache(paths: seq<string>, key: string)
    | Exec(command: string, args: seq<string>)

  datatype CacheResult = CacheResult(cacheHit: bool, browsersInstalled: bool)

  datatype Status = Done | Failed(message: string)

  /** process.env.GITHUB_ACTIONS is truthy: set and non-empty. */
  predicate InActions(env: Env) {
    env.githubActions.Some? && env.githubActions.value != ""
  }

  /** The value restoreCache returned is truthy: a non-empty matched key. */
  predicate RestoreHit(outcome: RestoreOutcome) {
    outcome.Matched? && outcome.key != ""
  }

  function Key(env: Env, browsers: seq<string>): string {
    CacheKey(env.platform, env.arch, env.version, browsers)
  }

  function RestoreCall(env: Env, browsers: seq<string>): Action {
    RestoreCache([CacheDir(env.platform, env.home)], Key(env, browsers), RestoreKeys(env.platform, env.arch))
  }

  function SaveCall(env: Env, browsers: seq<string>): Action {
    SaveCache([CacheDir(env.platform, env.home)], Key(env, browsers))
  }

  function InstallCall(browsers: seq<string>): Action {
    Exec("npx", ["playwright", "install", "--with-deps"] + browsers)
  }

  const DepsCall: Action := Exec("npx", ["playwright", "install-deps"])

  /** The branch that only installs system dependencies: in Actions, the restore hit, and the check passed. */
  predicate DepsOnly(env: Env, browsers: seq<string>) {
    InActions(env) && RestoreHit(env.restore) && CheckBrowsersInstalled(browsers, env.listing)
  }

  // ---------------------------------------------------------------------------
  // The steps
  // ---------------------------------------------------------------------------

  /** generateCacheKey: sorts the caller's list in place (returned as sorted) and builds the key from it. */
  method GenerateCacheKey(env: Env, browsers: seq<string>) returns (key: string, sorted: seq<string>)
    ensures Sorted(sorted) && multiset(sorted) == multiset(browsers)
    ensures key == Key(env, browsers) && key == Key(env, sorted)
  {
    sorted := Sort(browsers);
    key := Key(env, sorted);
    CacheKeyOfSorted(env.platform, env.arch, env.version, browsers);
  }

  /** restoreFromCache: returns the cache result, the caller's list as it is afterwards, and the calls made. */
  method RestoreFromCache(env: Env, browsers: seq<string>) returns (result: CacheResult, browsersAfter: seq<string>, trace: seq<Action>)
    ensures result.browsersInstalled ==> result.cacheHit
    ensures multiset(browsersAfter) == multiset(browsers)
    ensures !InActions(env) ==> result == CacheResult(false, false) && browsersAfter == browsers && trace == []
    ensures InActions(env) ==> browsersAfter == Sort(browsers) && trace == [RestoreCall(env, browsers)]
    ensures InActions(env) ==> result.cacheHit == RestoreHit(env.restore)
    ensures InActions(env) ==> result.browsersInstalled == DepsOnly(env, browsers)
  {
    if !InActions(env) {
      return CacheResult(false, false), browsers, [];
    }
    var cacheDir := CacheDir(env.platform, env.home);
    var cacheKey, sorted := GenerateCacheKey(env, browsers);
    SortedUnique(sorted, Sort(browsers));
    var restoreKeys := RestoreKeys(env.platform, env.arch);
    browsersAfter := sorted;
    trace := [RestoreCache([cacheDir], cacheKey, restoreKeys)];
    match env.restore
    case RestoreThrows(_) =>
      result := CacheResult(false, false);
    case NotFound =>
      result := CacheResult(false, false);
    case Matched(matched) =>
      if matched != "" {
        var installed := CheckBrowsersInstalled(sorted, env.listing);
        CheckIgnoresOrder(sorted, browsers, env.listing);
        result := CacheResult(true, installed);
      } else {
        result := CacheResult(false, false);
      }
  }

  /** installBrowsers: one install call; a failure is reported with the install prefix and the cause. */
  method InstallBrowsers(env: Env, browsers: seq<string>) returns (status: Status, trace: seq<Action>)
    ensures trace == [InstallCall(browsers)]
    ensures status == Done <==> env.install == ExecSucceeds
    ensures status.Failed? ==> env.install.ExecThrows? && status.message == InstallFailurePrefix + env.install.reason
  {
    trace := [Exec("npx", ["playwright", "install", "--with-deps"] + browsers)];
    match env.install
    case ExecSucceeds =>
      status := Done;
    case ExecThrows(reason) =>
      status := Failed(InstallFailurePrefix + reason);
  }

  /** installDependencies: one install-deps call, whose failure is only logged. */
  method InstallDependencies(env: Env) returns (trace: seq<Action>)
    ensures trace == [DepsCall]
  {
    trace := [Exec("npx", ["playwright", "install-deps"])];
    match env.deps
    case ExecSucceeds =>
    case ExecThrows(_) =>  // logged as a warning; the browsers may work without the dependencies
  }

  /** saveToCache: outside Actions nothing; inside, sorts the list again and saves under the exact key. Failures are only logged. */
  method SaveToCache(env: Env, browsers: seq<string>) returns (browsersAfter: seq<string>, trace: seq<Action>)
    ensures multiset(browsersAfter) == multiset(browsers)
    ensures !InActions(env) ==> browsersAfter == browsers && trace == []
    ensures InActions(env) ==> browsersAfter == Sort(browsers) && trace == [SaveCall(env, browsers)]
  {
    if !InActions(env) {
      return browsers, [];
    }
    var cacheDir := CacheDir(env.platform, env.home);
    var cacheKey, sorted := GenerateCacheKey(env, browsers);
    SortedUnique(sorted, Sort(browsers));
    browsersAfter := sorted;
    trace := [SaveCache([cacheDir], cacheKey)];
    match env.save
    case SaveSucceeds =>
    case SaveThrows(_) =>  // logged as a warning; the browsers are installed either way
  }

  /**
   * What the decision sequence after parsing does with the requested list bs:
   * install only the system dependencies when the restored directory checks
   * out, and otherwise run one full install (with the list as restoreFromCache
   * left it: sorted in Actions, as requested outside), then save under the
   * exact key when in Actions and the install succeeded. Only the install can
   * fail the run.
   */
  predicate Provisioned(env: Env, bs: seq<string>, status: Status, trace: seq<Action>) {
    if DepsOnly(env, bs) then
      status == Done && trace == [RestoreCall(env, bs), DepsCall]
    else
      && status == (if env.install == ExecSucceeds then Done else Failed(InstallFailurePrefix + env.install.reason))
      && trace == (if InActions(env) then [RestoreCall(env, bs), InstallCall(Sort(bs))] else [InstallCall(bs)])
                  + (if InActions(env) && env.install == ExecSucceeds then [SaveCall(env, bs)] else [])
  }

  /** The body of ensureBrowsersInstalled after the list is parsed: restore, then deps only or install and save. */
  method ProvisionBrowsers(env: Env, browsers: seq<string>) returns (status: Status, trace: seq<Action>)
    ensures Provisioned(env, browsers, status, trace)
  {
    var cacheResult, sorted, restoreTrace := RestoreFromCache(env, browsers);
    trace := restoreTrace;
    if cacheResult.cacheHit && cacheResult.browsersInstalled {
      var depsTrace := InstallDependencies(env);
      trace := trace + depsTrace;
      return Done, trace;
    }
    var installStatus, installTrace := InstallBrowsers(env, sorted);
    trace := trace + installTrace;
    if installStatus.Failed? {
      return installStatus, trace;
    }
    var _, saveTrace := SaveToCache(env, sorted);
    trace := trace + saveTrace;
    if InActions(env) {
      CacheKeyOfSorted(env.platform, env.arch, env.version, browsers);
    }
    status := Done;
  }

  /** ensureBrowsersInstalled: reject a blank list before any call, otherwise run the decision sequence. */
  method EnsureBrowsersInstalled(env: Env, input: string) returns (status: Status, trace: seq<Action>)
    ensures ParseBrowsers(input) == [] ==> status == Failed(NoBrowsersMessage) && trace == []
    ensures ParseBrowsers(input) != [] ==> Provisioned(env, ParseBrowsers(input), status, trace)
  {
    var browsers := ParseBrowsers(input);
    if |browsers| == 0 {
      return Failed(NoBrowsersMessage), [];
    }
    status, trace := ProvisionBrowsers(env, browsers);
  }

  // ---------------------------------------------------------------------------
  // Consequences of the decision sequence
  // ---------------------------------------------------------------------------

  /** Outside Actions the cache is never touched: every call is a process call. */
  lemma NoCacheCallsOutsideActions(env: Env, bs: seq<string>, status: Status, trace: seq<Action>)
    requires Provisioned(env, bs, status, trace) && !InActions(env)
    ensures forall a :: a in trace ==> a.Exec?
  {
  }

  /** The cache is saved only after a successful full install, under the key the restore looked up. */
  lemma SaveFollowsSuccessfulInstall(env: Env, bs: seq<string>, status: Status, trace: seq<Action>, i: nat)
    requires Provisioned(env, bs, status, trace)
    requires i < |trace| && trace[i].SaveCache?
    ensures status == Done && env.install == ExecSucceeds && !DepsOnly(env, bs)
    ensures i == 2 && trace[1].Exec? && trace[1].args[..2] == ["playwright", "install"]
    ensures trace[0].RestoreCache? && trace[i].key == trace[0].primaryKey
  {
  }

  /** A failed install ends the run with the install prefix and no save. */
  lemma FailedInstallStopsBeforeSave(env: Env, bs: seq<string>, status: Status, trace: seq<Action>)
    requires Provisioned(env, bs, status, trace) && status.Failed?
    ensures env.install.ExecThrows? && !DepsOnly(env, bs)
    ensures InstallFailurePrefix <= status.message
    ensures forall a :: a in trace ==> !a.SaveCache?
  {
  }

  /** A call that runs the full browser install. */
  predicate IsInstall(a: Action) {
    a.Exec? && a.command == "npx" && |a.args| >= 3 && a.args[..3] == ["playwright", "install", "--with-deps"]
  }

  function InstallCount(trace: seq<Action>): nat {
    if trace == [] then 0
    else (if IsInstall(trace[0]) then 1 else 0) + InstallCount(trace[1..])
  }

  lemma {:induction false} InstallCountAppend(a: seq<Action>, b: seq<Action>)
    ensures InstallCount(a + b) == InstallCount(a) + InstallCount(b)
  {
    if a == [] {
      assert a + b == b;
    } else {
      assert (a + b)[1..] == a[1..] + b;
      InstallCountAppend(a[1..], b);
    }
  }

  lemma InstallCountOne(x: Action)
    ensures InstallCount([x]) == if IsInstall(x) then 1 else 0
  {
    assert [x][1..] == [];
  }

  /** A restored, checked directory gets only the dependency install; otherwise exactly one full install runs. */
  lemma InstallRunsUnlessVerified(env: Env, bs: seq<string>, status: Status, trace: seq<Action>)
    requires Provisioned(env, bs, status, trace)
    ensures DepsOnly(env, bs) ==> DepsCall in trace && InstallCount(trace) == 0
    ensures !DepsOnly(env, bs) ==> DepsCall !in trace && InstallCount(trace) == 1
  {
    var args := ["playwright", "install", "--with-deps"];
    var restore, save := RestoreCall(env, bs), SaveCall(env, bs);
    InstallCountOne(restore);
    InstallCountOne(save);
    InstallCountOne(DepsCall);
    if DepsOnly(env, bs) {
      InstallCountAppend([restore], [DepsCall]);
    } else {
      var install := InstallCall(if InActions(env) then Sort(bs) else bs);
      assert install.args[..3] == args;
      InstallCountOne(install);
      var tail := if InActions(env) && env.install == ExecSucceeds then [save] else [];
      assert InstallCount(tail) == 0;
      if InActions(env) {
        InstallCountAppend([restore], [install]);
        InstallCountAppend([restore] + [install], tail);
        assert trace == [restore] + [install] + tail;
      } else {
        InstallCountAppend([install], tail);
      }
    }
  }

  /** Failures of the dependency install and of the cache save change neither the status nor the calls made. */
  lemma DepsAndSaveFailuresAreSwallowed(env: Env, bs: seq<string>, status: Status, trace: seq<Action>,
                                        deps: ExecOutcome, save: SaveOutcome)
    ensures Provisioned(env, bs, status, trace) <==> Provisioned(env.(deps := deps, save := save), bs, status, trace)
  {
  }

  /**
   * A match on a fallback restore key counts as a hit: when the listing passes
   * the check, only the dependency install runs and nothing is saved under the
   * exact key, even though the restored entry was saved under another key.
   */
  lemma FallbackMatchCountsAsHit(env: Env, bs: seq<string>, status: Status, trace: seq<Action>)
    requires InActions(env) && env.restore.Matched? && env.restore.key != "" && env.restore.key != Key(env, bs)
    requires CheckBrowsersInstalled(bs, env.listing)
    requires Provisioned(env, bs, status, trace)
    ensures status == Done && trace == [RestoreCall(env, bs), DepsCall]
    ensures forall a :: a in trace ==> !a.SaveCache?
  {
  }

}
