/**
 * Construction of the handler (`HandlerBuilder` and its `Build`): the
 * mandatory logger and next handler, at least one key source, key files that
 * are regular files, key URLs that parse, public-path patterns that compile,
 * and the access-control list merged from its files.
 *
 * The file system, the URL parser, the regular-expression compiler and the
 * YAML reader are the oracles of `Env`.
 */
module Config {
  import opened Wrappers
  import opened Ascii

  /** What `os.Stat` tells about a path. `Missing` stands for any error of `os.Stat`. */
  datatype FileStat = Missing | NotRegular | Regular

  /** One item of an ACL file. */
  datatype AclRecord = AclRecord(claim: string, pattern: string)

  /**
   * The builder. The logger and the next handler are only ever checked for
   * presence, so they are flags here; the certificate pool and the insecure
   * flag only configure the HTTP client and are left out.
   */
  datatype Builder = Builder(
    hasLogger: bool,
    publicPaths: seq<string>,
    keysFiles: seq<string>,
    keysURLs: seq<string>,
    aclFiles: seq<string>,
    hasNext: bool)

  /**
   * The outside world as `Build` sees it: `os.Stat`; `url.Parse`, giving the
   * scheme or `None` on a parse error; `regexp.Compile` succeeding; and the
   * items of an ACL file, or `None` when reading or decoding it fails.
   */
  datatype Env = Env(
    stat: string -> FileStat,
    urlScheme: string -> Option<string>,
    compiles: string -> bool,
    readACL: string -> Option<seq<AclRecord>>)

  /** The errors of `Build`, each with the item it is about. */
  datatype BuildError =
    | LoggerMandatory
    | NextMandatory
    | NoKeysSource
    | KeysFileMissing(file: string)
    | KeysFileNotRegular(file: string)
    | InvalidKeysURL(addr: string)
    | NotHTTPS(addr: string)
    | InvalidPublicPath(expr: string)
    | AclUnreadable(file: string)
    | InvalidAclPattern(file: string, pattern: string)

  /**
   * The configuration a built handler keeps. Patterns are kept as their text;
   * matching is the `Matcher` oracle of the handler.
   */
  datatype Settings = Settings(
    publicPaths: seq<string>,
    keysFiles: seq<string>,
    keysURLs: seq<string>,
    aclItems: map<string, string>)

  /** The two results of `Build`: the handler (its settings) and the error. */
  datatype Verdict = Verdict(settings: Option<Settings>, err: Option<BuildError>)

  // ---------------------------------------------------------------------------
  // The builder's setters.

  /** `NewHandler`: nothing configured. */
  function NewBuilder(): (b: Builder)
    ensures !b.hasLogger && !b.hasNext
    ensures b.publicPaths == [] && b.keysFiles == [] && b.keysURLs == [] && b.aclFiles == []
  {
    Builder(false, [], [], [], [], false)
  }

  /**
   * `Logger`: stores the given logger, so a nil one (`present` false) clears
   * it again; nothing else changes.
   */
  function WithLogger(b: Builder, present: bool): (r: Builder)
    ensures r.hasLogger == present && r.(hasLogger := b.hasLogger) == b
  {
    b.(hasLogger := present)
  }

  /** `Next`: stores the given next handler, or clears it; nothing else changes. */
  function WithNext(b: Builder, present: bool): (r: Builder)
    ensures r.hasNext == present && r.(hasNext := b.hasNext) == b
  {
    b.(hasNext := present)
  }

  /** `Public` appends every pattern, the empty one included; nothing else changes. */
  function Public(b: Builder, expr: string): (r: Builder)
    ensures r.publicPaths == b.publicPaths + [expr]
    ensures r.(publicPaths := b.publicPaths) == b
  {
    b.(publicPaths := b.publicPaths + [expr])
  }

  /** `KeysFile` ignores the empty text and appends any other; nothing else changes. */
  function KeysFile(b: Builder, file: string): (r: Builder)
    ensures file == "" ==> r == b
    ensures file != "" ==> r.keysFiles == b.keysFiles + [file]
    ensures r.(keysFiles := b.keysFiles) == b
  {
    if file == "" then b else b.(keysFiles := b.keysFiles + [file])
  }

  /** `KeysURL` ignores the empty text and appends any other; nothing else changes. */
  function KeysURL(b: Builder, addr: string): (r: Builder)
    ensures addr == "" ==> r == b
    ensures addr != "" ==> r.keysURLs == b.keysURLs + [addr]
    ensures r.(keysURLs := b.keysURLs) == b
  {
    if addr == "" then b else b.(keysURLs := b.keysURLs + [addr])
  }

  /** `ACLFile` ignores the empty text and appends any other; nothing else changes. */
  function ACLFile(b: Builder, file: string): (r: Builder)
    ensures file == "" ==> r == b
    ensures file != "" ==> r.aclFiles == b.aclFiles + [file]
    ensures r.(aclFiles := b.aclFiles) == b
  {
    if file == "" then b else b.(aclFiles := b.aclFiles + [file])
  }

  // ---------------------------------------------------------------------------
  // The access-control list.

  /**
   * The item loop of `loadACLFile`: each record sets the pattern of its
   * claim. A claim is present iff it was before or some record names it.
   */
  function MergeAcl(items: map<string, string>, recs: seq<AclRecord>): (r: map<string, string>)
    ensures forall c :: c in r <==> c in items || exists i :: 0 <= i < |recs| && recs[i].claim == c
  {
    if recs == [] then items
    else
      var front := MergeAcl(items, recs[..|recs| - 1]);
      assert forall i :: 0 <= i < |recs| - 1 ==> recs[..|recs| - 1][i] == recs[i];
      front[recs[|recs| - 1].claim := recs[|recs| - 1].pattern]
  }

  /** The last record for a claim decides its pattern. */
  lemma {:induction false} MergeAclLastWins(items: map<string, string>, recs: seq<AclRecord>, i: nat)
    requires i < |recs|
    requires forall j :: i < j < |recs| ==> recs[j].claim != recs[i].claim
    ensures recs[i].claim in MergeAcl(items, recs)
    ensures MergeAcl(items, recs)[recs[i].claim] == recs[i].pattern
  {
    if i < |recs| - 1 {
      MergeAclLastWins(items, recs[..|recs| - 1], i);
    }
  }

  /** A claim no record names keeps the pattern it had. */
  lemma {:induction false} MergeAclKeepsOthers(items: map<string, string>, recs: seq<AclRecord>, c: string)
    requires c in items
    requires forall j :: 0 <= j < |recs| ==> recs[j].claim != c
    ensures MergeAcl(items, recs)[c] == items[c]
  {
    if recs != [] {
      MergeAclKeepsOthers(items, recs[..|recs| - 1], c);
    }
  }

  lemma {:induction false} MergeAclAppend(items: map<string, string>, a: seq<AclRecord>, b: seq<AclRecord>)
    ensures MergeAcl(items, a + b) == MergeAcl(MergeAcl(items, a), b)
  {
    if b != [] {
      assert (a + b)[..|a + b| - 1] == a + b[..|b| - 1];
      MergeAclAppend(items, a, b[..|b| - 1]);
    } else {
      assert a + b == a;
    }
  }

  /** An ACL file loads: it can be read and every pattern in it compiles. */
  predicate AclFileLoads(env: Env, file: string) {
    env.readACL(file).Some? && FirstFailing(env.readACL(file).value, PatternCompiles(env)).None?
  }

  /** The error `loadACLFile` returns for a file that does not load. */
  function AclError(env: Env, file: string): (e: BuildError)
    requires !AclFileLoads(env, file)
    ensures e == AclUnreadable(file) || e.InvalidAclPattern?
  {
    match env.readACL(file)
    case None => AclUnreadable(file)
    case Some(recs) =>
      var k := FirstFailing(recs, PatternCompiles(env)).value;
      InvalidAclPattern(file, recs[k].pattern)
  }

  /** The records of all ACL files, in file order. */
  function AclRecordsOf(env: Env, files: seq<string>): seq<AclRecord> {
    if files == [] then []
    else
      var last := files[|files| - 1];
      AclRecordsOf(env, files[..|files| - 1])
        + (if env.readACL(last).Some? then env.readACL(last).value else [])
  }

  /**
   * `loadACLFile`: the items of the file are merged into `items` in order,
   * stopping at the first pattern that does not compile; the merged map is
   * only meaningful when no error is returned.
   */
  method LoadACLFile(file: string, items: map<string, string>, env: Env)
    returns (merged: map<string, string>, err: Option<BuildError>)
    ensures err.None? <==> AclFileLoads(env, file)
    ensures err.Some? ==> err.value == AclError(env, file)
    ensures err.None? ==> merged == MergeAcl(items, env.readACL(file).value)
  {
    merged := items;
    var data := env.readACL(file);
    if data.None? {
      return merged, Some(AclUnreadable(file));
    }
    var recs := data.value;
    var i := 0;
    while i < |recs|
      invariant 0 <= i <= |recs|
      invariant forall j :: 0 <= j < i ==> env.compiles(recs[j].pattern)
      invariant merged == MergeAcl(items, recs[..i])
    {
      if !env.compiles(recs[i].pattern) {
        FirstFailingAt(recs, PatternCompiles(env), i);
        return merged, Some(InvalidAclPattern(file, recs[i].pattern));
      }
      assert recs[..i + 1][..i] == recs[..i];
      merged := merged[recs[i].claim := recs[i].pattern];
      i := i + 1;
    }
    assert recs[..i] == recs;
    FirstFailingNone(recs, PatternCompiles(env));
    err := None;
  }

  // ---------------------------------------------------------------------------
  // Build.

  /** The index of the first element that fails `ok`, if any. */
  function FirstFailing<T>(xs: seq<T>, ok: T -> bool): (r: Option<nat>)
    ensures r.None? <==> forall i :: 0 <= i < |xs| ==> ok(xs[i])
    ensures r.Some? ==> r.value < |xs| && !ok(xs[r.value]) && forall i :: 0 <= i < r.value ==> ok(xs[i])
  {
    if xs == [] then None
    else if !ok(xs[0]) then Some(0)
    else
      var rest := FirstFailing(xs[1..], ok);
      assert forall i :: 1 <= i < |xs| ==> xs[1..][i - 1] == xs[i];
      if rest.None? then None else Some(rest.value + 1)
  }

  /** Whatever fails first is what `FirstFailing` names. */
  lemma FirstFailingAt<T>(xs: seq<T>, ok: T -> bool, i: nat)
    requires i < |xs| && !ok(xs[i])
    requires forall j :: 0 <= j < i ==> ok(xs[j])
    ensures FirstFailing(xs, ok) == Some(i)
  {
  }

  lemma FirstFailingNone<T>(xs: seq<T>, ok: T -> bool)
    requires forall j :: 0 <= j < |xs| ==> ok(xs[j])
    ensures FirstFailing(xs, ok).None?
  {
  }

  /** The tests of `Build`, one per loop. */
  function FileIsRegular(env: Env): string -> bool {
    f => env.stat(f) == Regular
  }

  function UrlParses(env: Env): string -> bool {
    a => env.urlScheme(a).Some?
  }

  function PatternCompiles(env: Env): AclRecord -> bool {
    (r: AclRecord) => env.compiles(r.pattern)
  }

  function AclLoads(env: Env): string -> bool {
    f => AclFileLoads(env, f)
  }

  /** The scheme test of the URL loop. */
  predicate IsHttps(scheme: string) {
    EqualFold(scheme, "https")
  }

  /** A refused build: no handler, and the error. */
  function Refused(e: BuildError): Verdict {
    Verdict(None, Some(e))
  }

  /** The error of the file loop for a key file that is not a regular file. */
  function KeysFileError(env: Env, file: string): BuildError {
    if env.stat(file) == Missing then KeysFileMissing(file) else KeysFileNotRegular(file)
  }

  /**
   * What `err` holds after the URL loop when every URL parses: each
   * `url.Parse` resets it, so only the scheme of the last URL counts.
   */
  function LastSchemeError(urls: seq<string>, env: Env): Option<BuildError> {
    if urls == [] then None
    else
      var last := urls[|urls| - 1];
      match env.urlScheme(last)
      case Some(scheme) => if IsHttps(scheme) then None else Some(NotHTTPS(last))
      case None => None
  }

  /**
   * The error `Build` still carries when it returns a handler. The URL loop
   * sets `err` for a non-HTTPS URL without returning, but every later
   * successful `regexp.Compile` and `loadACLFile` resets it, so it survives
   * only when there are no public paths and no ACL files.
   */
  function LingeringError(b: Builder, env: Env): Option<BuildError> {
    if b.publicPaths != [] || b.aclFiles != [] then None else LastSchemeError(b.keysURLs, env)
  }

  /** What `Build` returns, check by check in the order it runs them. */
  function BuildSpec(b: Builder, env: Env): (v: Verdict)
    ensures v.settings.None? ==> v.err.Some?
    ensures v.settings.Some? ==> b.hasLogger && b.hasNext && |b.keysFiles| + |b.keysURLs| > 0
    ensures v.settings.Some? ==>
      && v.settings.value.publicPaths == b.publicPaths
      && v.settings.value.keysFiles == b.keysFiles
      && v.settings.value.keysURLs == b.keysURLs
    ensures v.settings.Some? && v.err.Some? ==> v.err.value.NotHTTPS?
  {
    if !b.hasLogger then Refused(LoggerMandatory)
    else if !b.hasNext then Refused(NextMandatory)
    else if |b.keysFiles| + |b.keysURLs| == 0 then Refused(NoKeysSource)
    else if FirstFailing(b.keysFiles, FileIsRegular(env)).Some? then
      Refused(KeysFileError(env, b.keysFiles[FirstFailing(b.keysFiles, FileIsRegular(env)).value]))
    else if FirstFailing(b.keysURLs, UrlParses(env)).Some? then
      Refused(InvalidKeysURL(b.keysURLs[FirstFailing(b.keysURLs, UrlParses(env)).value]))
    else if FirstFailing(b.publicPaths, env.compiles).Some? then
      Refused(InvalidPublicPath(b.publicPaths[FirstFailing(b.publicPaths, env.compiles).value]))
    else if FirstFailing(b.aclFiles, AclLoads(env)).Some? then
      Refused(AclError(env, b.aclFiles[FirstFailing(b.aclFiles, AclLoads(env)).value]))
    else
      Verdict(
        Some(Settings(b.publicPaths, b.keysFiles, b.keysURLs, MergeAclFiles(map[], b.aclFiles, env))),
        LingeringError(b, env))
  }

  /** The ACL loop of `Build` over files that all load. */
  function MergeAclFiles(items: map<string, string>, files: seq<string>, env: Env): (r: map<string, string>)
    ensures items.Keys <= r.Keys
  {
    if files == [] then items
    else
      var last := files[|files| - 1];
      var front := MergeAclFiles(items, files[..|files| - 1], env);
      if env.readACL(last).Some? then MergeAcl(front, env.readACL(last).value) else front
  }

  /** Merging file by file is merging all their records at once. */
  lemma {:induction false} MergeAclFilesFlat(items: map<string, string>, files: seq<string>, env: Env)
    ensures MergeAclFiles(items, files, env) == MergeAcl(items, AclRecordsOf(env, files))
  {
    if files != [] {
      var last := files[|files| - 1];
      MergeAclFilesFlat(items, files[..|files| - 1], env);
      MergeAclAppend(items, AclRecordsOf(env, files[..|files| - 1]),
        if env.readACL(last).Some? then env.readACL(last).value else []);
    }
  }

  /** The key-file loop of `Build`: stop at the first file that is not regular. */
  method CheckKeysFiles(files: seq<string>, env: Env) returns (err: Option<BuildError>)
    ensures err.None? <==> FirstFailing(files, FileIsRegular(env)).None?
    ensures err.Some? ==> err.value == KeysFileError(env, files[FirstFailing(files, FileIsRegular(env)).value])
  {
    var i := 0;
    while i < |files|
      invariant 0 <= i <= |files|
      invariant forall j :: 0 <= j < i ==> env.stat(files[j]) == Regular
    {
      var info := env.stat(files[i]);
      if info == Missing {
        FirstFailingAt(files, FileIsRegular(env), i);
        return Some(KeysFileMissing(files[i]));
      }
      if info != Regular {
        FirstFailingAt(files, FileIsRegular(env), i);
        return Some(KeysFileNotRegular(files[i]));
      }
      i := i + 1;
    }
    FirstFailingNone(files, FileIsRegular(env));
    return None;
  }

  /**
   * The key-URL loop of `Build`: stop at the first URL that does not parse;
   * otherwise `err` ends up as the scheme test of the last URL.
   */
  method CheckKeysURLs(urls: seq<string>, env: Env) returns (fatal: bool, err: Option<BuildError>)
    ensures fatal <==> FirstFailing(urls, UrlParses(env)).Some?
    ensures fatal ==> err == Some(InvalidKeysURL(urls[FirstFailing(urls, UrlParses(env)).value]))
    ensures !fatal ==> err == LastSchemeError(urls, env)
  {
    err := None;
    var i := 0;
    while i < |urls|
      invariant 0 <= i <= |urls|
      invariant forall j :: 0 <= j < i ==> env.urlScheme(urls[j]).Some?
      invariant err == LastSchemeError(urls[..i], env)
    {
      var addr := urls[i];
      var parsed := env.urlScheme(addr);
      if parsed.None? {
        FirstFailingAt(urls, UrlParses(env), i);
        return true, Some(InvalidKeysURL(addr));
      }
      err := None;
      if !IsHttps(parsed.value) {
        err := Some(NotHTTPS(addr));
      }
      assert urls[..i + 1][i] == addr;
      i := i + 1;
    }
    assert urls[..i] == urls;
    FirstFailingNone(urls, UrlParses(env));
    return false, err;
  }

  /**
   * The public-path loop of `Build`: stop at the first pattern that does not
   * compile; every pattern that compiles resets `err`.
   */
  method CompilePublicPaths(paths: seq<string>, env: Env, err0: Option<BuildError>)
    returns (fatal: bool, err: Option<BuildError>)
    ensures fatal <==> FirstFailing(paths, env.compiles).Some?
    ensures fatal ==> err == Some(InvalidPublicPath(paths[FirstFailing(paths, env.compiles).value]))
    ensures !fatal ==> err == (if paths == [] then err0 else None)
  {
    err := err0;
    var i := 0;
    while i < |paths|
      invariant 0 <= i <= |paths|
      invariant forall j :: 0 <= j < i ==> env.compiles(paths[j])
      invariant err == (if i == 0 then err0 else None)
    {
      if !env.compiles(paths[i]) {
        FirstFailingAt(paths, env.compiles, i);
        return true, Some(InvalidPublicPath(paths[i]));
      }
      err := None;
      i := i + 1;
    }
    FirstFailingNone(paths, env.compiles);
    return false, err;
  }

  /**
   * The ACL loop of `Build`: load the files in order into one map, stopping
   * at the first file that does not load; every file that loads resets `err`.
   */
  method LoadAclFiles(files: seq<string>, env: Env, err0: Option<BuildError>)
    returns (items: map<string, string>, fatal: bool, err: Option<BuildError>)
    ensures fatal <==> FirstFailing(files, AclLoads(env)).Some?
    ensures fatal ==> err == Some(AclError(env, files[FirstFailing(files, AclLoads(env)).value]))
    ensures !fatal ==> err == (if files == [] then err0 else None)
    ensures !fatal ==> items == MergeAclFiles(map[], files, env)
  {
    items := map[];
    err := err0;
    var i := 0;
    while i < |files|
      invariant 0 <= i <= |files|
      invariant forall j :: 0 <= j < i ==> AclFileLoads(env, files[j])
      invariant items == MergeAclFiles(map[], files[..i], env)
      invariant err == (if i == 0 then err0 else None)
    {
      var file := files[i];
      items, err := LoadACLFile(file, items, env);
      if err.Some? {
        FirstFailingAt(files, AclLoads(env), i);
        return items, true, err;
      }
      assert files[..i + 1][..i] == files[..i];
      i := i + 1;
    }
    assert files[..i] == files;
    FirstFailingNone(files, AclLoads(env));
    return items, false, err;
  }

  /**
   * The checks of `Build`: the presence checks, then the four loops in
   * order, `err` threaded from one loop to the next as in the source. The
   * settings are what the handler `Build` creates is made of.
   */
  method Validate(b: Builder, env: Env) returns (settings: Option<Settings>, err: Option<BuildError>)
    ensures Verdict(settings, err) == BuildSpec(b, env)
  {
    if !b.hasLogger {
      return None, Some(LoggerMandatory);
    }
    if !b.hasNext {
      return None, Some(NextMandatory);
    }
    if |b.keysFiles| + |b.keysURLs| == 0 {
      return None, Some(NoKeysSource);
    }
    err := CheckKeysFiles(b.keysFiles, env);
    if err.Some? {
      return None, err;
    }
    var fatal;
    fatal, err := CheckKeysURLs(b.keysURLs, env);
    if fatal {
      return None, err;
    }
    fatal, err := CompilePublicPaths(b.publicPaths, env, err);
    if fatal {
      return None, err;
    }
    var items;
    items, fatal, err := LoadAclFiles(b.aclFiles, env, err);
    if fatal {
      return None, err;
    }
    settings := Some(Settings(b.publicPaths, b.keysFiles, b.keysURLs, items));
  }

  // ---------------------------------------------------------------------------
  // Properties of Build.

  /**
   * `Build` returns a handler iff the logger and the next handler are set,
   * there is a key source, every key file is a regular file, every key URL
   * parses, every public pattern compiles and every ACL file loads. Without
   * a handler there is always an error.
   */
  lemma BuildSucceedsIff(b: Builder, env: Env)
    ensures BuildSpec(b, env).settings.Some? <==>
      && b.hasLogger && b.hasNext && |b.keysFiles| + |b.keysURLs| > 0
      && (forall i :: 0 <= i < |b.keysFiles| ==> env.stat(b.keysFiles[i]) == Regular)
      && (forall i :: 0 <= i < |b.keysURLs| ==> env.urlScheme(b.keysURLs[i]).Some?)
      && (forall i :: 0 <= i < |b.publicPaths| ==> env.compiles(b.publicPaths[i]))
      && (forall i :: 0 <= i < |b.aclFiles| ==> AclFileLoads(env, b.aclFiles[i]))
    ensures BuildSpec(b, env).settings.None? ==> BuildSpec(b, env).err.Some?
  {
  }

  /**
   * The only error a built handler comes with: a non-HTTPS scheme of the
   * LAST key URL, and only when no public path and no ACL file is
   * configured. A non-HTTPS URL anywhere else never surfaces.
   */
  lemma BuildHttpsErrorLingers(b: Builder, env: Env)
    requires BuildSpec(b, env).settings.Some?
    ensures BuildSpec(b, env).err.Some? <==>
      && b.publicPaths == [] && b.aclFiles == [] && b.keysURLs != []
      && !IsHttps(env.urlScheme(b.keysURLs[|b.keysURLs| - 1]).value)
    ensures BuildSpec(b, env).err.Some? ==>
      BuildSpec(b, env).err.value == NotHTTPS(b.keysURLs[|b.keysURLs| - 1])
  {
  }

  /**
   * The first key file that fails `os.Stat` or is not a regular file is the
   * one reported, and nothing after it is examined.
   */
  lemma BuildReportsFirstBadFile(b: Builder, env: Env, k: nat)
    requires b.hasLogger && b.hasNext
    requires k < |b.keysFiles| && env.stat(b.keysFiles[k]) != Regular
    requires forall j :: 0 <= j < k ==> env.stat(b.keysFiles[j]) == Regular
    ensures BuildSpec(b, env) == Refused(
      if env.stat(b.keysFiles[k]) == Missing then KeysFileMissing(b.keysFiles[k])
      else KeysFileNotRegular(b.keysFiles[k]))
  {
  }

  /**
   * The ACL of a built handler: the claims named by some record of some ACL
   * file, and for each the pattern of the last record naming it, across all
   * files in order.
   */
  lemma BuildAclLastWins(b: Builder, env: Env, i: nat)
    requires BuildSpec(b, env).settings.Some?
    requires i < |AclRecordsOf(env, b.aclFiles)|
    requires forall j :: i < j < |AclRecordsOf(env, b.aclFiles)| ==>
      AclRecordsOf(env, b.aclFiles)[j].claim != AclRecordsOf(env, b.aclFiles)[i].claim
    ensures var recs := AclRecordsOf(env, b.aclFiles);
      && recs[i].claim in BuildSpec(b, env).settings.value.aclItems
      && BuildSpec(b, env).settings.value.aclItems[recs[i].claim] == recs[i].pattern
  {
    BuildAclFlat(b, env);
    MergeAclLastWins(map[], AclRecordsOf(env, b.aclFiles), i);
  }

  /** The ACL of a built handler is one merge of all ACL records in file order. */
  lemma BuildAclFlat(b: Builder, env: Env)
    requires BuildSpec(b, env).settings.Some?
    ensures BuildSpec(b, env).settings.value.aclItems == MergeAcl(map[], AclRecordsOf(env, b.aclFiles))
  {
    MergeAclFilesFlat(map[], b.aclFiles, env);
  }

  /** A builder whose logger was set and then cleared with nil is refused. */
  lemma BuildClearedLogger(b: Builder, env: Env)
    ensures BuildSpec(WithLogger(b, false), env) == Refused(LoggerMandatory)
  {
  }

  /** So is one whose next handler was cleared, once the logger is there. */
  lemma BuildClearedNext(b: Builder, env: Env)
    requires b.hasLogger
    ensures BuildSpec(WithNext(b, false), env) == Refused(NextMandatory)
  {
  }

  /**
   * The smallest configuration that builds: a logger, a next handler and
   * one regular key file. The empty key file is ignored by the setter, so
   * it adds nothing, and the handler comes with no error.
   */
  lemma BuildMinimal(env: Env, file: string)
    requires file != "" && env.stat(file) == Regular
    ensures var b := WithNext(WithLogger(KeysFile(KeysFile(NewBuilder(), ""), file), true), true);
      BuildSpec(b, env) == Verdict(Some(Settings([], [file], [], map[])), None)
  {
    var b := WithNext(WithLogger(KeysFile(KeysFile(NewBuilder(), ""), file), true), true);
    assert b.keysFiles == [file];
    FirstFailingNone(b.keysFiles, FileIsRegular(env));
  }

  /**
   * Adding a public pattern that compiles to a builder that builds keeps it
   * building, appends the pattern to the public paths and clears the
   * lingering HTTPS error.
   */
  lemma BuildPublicClearsError(b: Builder, env: Env, expr: string)
    requires BuildSpec(b, env).settings.Some? && env.compiles(expr)
    ensures var v := BuildSpec(Public(b, expr), env);
      && v.settings.Some?
      && v.settings.value == BuildSpec(b, env).settings.value.(publicPaths := b.publicPaths + [expr])
      && v.err.None?
  {
    BuildSucceedsIff(b, env);
    BuildSucceedsIff(Public(b, expr), env);
  }

  /** A claim is in the ACL of a built handler iff some ACL record names it. */
  lemma BuildAclClaims(b: Builder, env: Env, c: string)
    requires BuildSpec(b, env).settings.Some?
    ensures c in BuildSpec(b, env).settings.value.aclItems <==>
      exists i :: 0 <= i < |AclRecordsOf(env, b.aclFiles)| && AclRecordsOf(env, b.aclFiles)[i].claim == c
  {
    BuildAclFlat(b, env);
  }
}
