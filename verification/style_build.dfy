/**
 * One run of the style build: decide whether to rebuild, compile, write
 * the stylesheet (and its source map in development), and move the
 * freshness marker. This module states the step as a function of the
 * persisted state; `ThemeSite.Site.CompileScss` runs it in place.
 */
module StyleBuild {
  import opened Strings
  import opened ThemeDirs
  import opened Freshness

  /** The environment type that disables caching and enables source maps. */
  const DevelopmentEnvironment := "development"

  /** The text `wp_die` shows before the compiler's exception message. */
  const DiePrefix := "<b>bootScore SCSS Compiler - Caught exception:</b><br><br> "

  /** What the SCSS compiler is asked to do. */
  datatype CompileRequest = CompileRequest(
    source: string,            // the root style source's text
    importPaths: seq<string>,  // the import search path
    sourceMapOptions: bool     // URL/base-path options for a file source map were set (development only)
  )

  /** The compiler returns the CSS and its source map, or throws. */
  datatype CompileOutcome = Compiled(css: string, sourceMap: string) | Threw(message: string)

  /** How one run ended. `Died` is the request aborted by `wp_die`. */
  datatype BuildOutcome = UpToDate | Rebuilt | Died(message: string)

  /** The persisted state the build reads and writes: the marker (theme mod) and the files. */
  datatype BuildState = BuildState(marker: int, files: map<string, string>)

  predicate IsDevelopment(host: Host)
  {
    host.environmentType == DevelopmentEnvironment
  }

  /** `file_get_contents`, with a missing file read as the empty string (PHP's `false` as a string). */
  function ReadOrEmpty(files: map<string, string>, path: string): string
  {
    if path in files then files[path] else ""
  }

  /** The source-map file that sits beside a stylesheet: the last three characters replaced by `map`. */
  function SourceMapPath(cssPath: string): string
  {
    DropLastThree(cssPath) + "map"
  }

  /** Beside `<dir>/css/main.css` the source map is `<dir>/css/main.map`, a different file. */
  lemma SourceMapBesideCss(dir: string)
    ensures SourceMapPath(MainCssPath(dir)) == dir + "/css/main.map"
    ensures SourceMapPath(MainCssPath(dir)) != MainCssPath(dir)
  {
    var css := MainCssPath(dir);
    assert css[..|css| - 3] == dir + "/css/main.";
    var m := SourceMapPath(css);
    assert m[|m| - 1] == 'p' && css[|css| - 1] == 's';
  }

  /** The directory whose sources this state compiles. */
  function BuildDirectory(s: BuildState, host: Host): string
  {
    ThemeDirectory(host, s.files.Keys)
  }

  /** The request the compiler receives in state `s`. */
  function Request(s: BuildState, host: Host): CompileRequest
  {
    var dir := BuildDirectory(s, host);
    CompileRequest(ReadOrEmpty(s.files, MainScssPath(dir)), ImportPaths(host, s.files.Keys), IsDevelopment(host))
  }

  /** The rebuild rule: the sources are newer than the marker, the CSS is missing, or this is development. */
  predicate NeedsRebuild(s: BuildState, host: Host, signature: int)
  {
    signature > s.marker || MainCssPath(BuildDirectory(s, host)) !in s.files || IsDevelopment(host)
  }

  /** One run of the style build from state `s`, given the freshness signature and the compiler. */
  function Build(s: BuildState, host: Host, signature: int, compile: CompileRequest -> CompileOutcome)
    : (res: (BuildState, BuildOutcome))
    // a compile is attempted exactly under the rebuild rule
    ensures res.1 != UpToDate <==>
      signature > s.marker || MainCssPath(BuildDirectory(s, host)) !in s.files || IsDevelopment(host)
    // unless it succeeds, nothing is written and the marker stays
    ensures !res.1.Rebuilt? ==> res.0 == s
    ensures res.1.Died? <==> NeedsRebuild(s, host, signature) && compile(Request(s, host)).Threw?
    ensures res.1.Died? ==> res.1.message == DiePrefix + compile(Request(s, host)).message
    // a success moves the marker to the signature and writes the CSS, and the map only in development
    ensures res.1.Rebuilt? ==>
      var dir := BuildDirectory(s, host);
      var out := compile(Request(s, host));
      && out.Compiled?
      && res.0.marker == signature
      && MainCssPath(dir) in res.0.files && res.0.files[MainCssPath(dir)] == out.css
      && (IsDevelopment(host) ==>
            dir + "/css/main.map" in res.0.files && res.0.files[dir + "/css/main.map"] == out.sourceMap)
      && res.0.files.Keys == s.files.Keys + {MainCssPath(dir)}
           + (if IsDevelopment(host) then {dir + "/css/main.map"} else {})
      && forall p :: p in s.files && p != MainCssPath(dir) && (IsDevelopment(host) ==> p != dir + "/css/main.map") ==>
           res.0.files[p] == s.files[p]
  {
    var dir := BuildDirectory(s, host);
    var cssFile := MainCssPath(dir);
    SourceMapBesideCss(dir);
    if NeedsRebuild(s, host, signature) then
      match compile(Request(s, host))
      case Threw(message) => (s, Died(DiePrefix + message))
      case Compiled(css, sourceMap) =>
        var written := s.files[cssFile := css];
        var files := if IsDevelopment(host) then written[SourceMapPath(cssFile) := sourceMap] else written;
        (BuildState(signature, files), Rebuilt)
    else
      (s, UpToDate)
  }

  /**
   * Outside development, once a run has rebuilt, a second run with the same
   * signature finds the CSS present and the marker current: it compiles
   * nothing and writes nothing, whatever the compiler would do.
   */
  lemma IdempotentOutsideDevelopment(s: BuildState, host: Host, signature: int,
                                     compile: CompileRequest -> CompileOutcome,
                                     compileAgain: CompileRequest -> CompileOutcome)
    requires !IsDevelopment(host)
    requires Build(s, host, signature, compile).1 == Rebuilt
    ensures var s' := Build(s, host, signature, compile).0;
      Build(s', host, signature, compileAgain) == (s', UpToDate)
  {
    var s' := Build(s, host, signature, compile).0;
    var dir := BuildDirectory(s, host);
    assert s'.files.Keys == s.files.Keys + {dir + "/css/main.css"};
    SelectionIgnoresArtifacts(host, s.files.Keys, dir, "/css/main.css");
    assert BuildDirectory(s', host) == dir;
  }

  /**
   * Touching a tracked source after a run that left the marker at the
   * signature makes the next run compile again.
   */
  lemma TouchTriggersRebuild(s: BuildState, host: Host, listing: Listing, k: nat, mtime: int,
                             bootstrapMtime: int, compile: CompileRequest -> CompileOutcome)
    requires s.marker == Signature(listing, bootstrapMtime)
    requires k < |listing| && IsTracked(listing[k].0) && mtime > listing[k].1
    ensures Build(s, host, Signature(listing[k := (listing[k].0, mtime)], bootstrapMtime), compile).1 != UpToDate
  {
    TouchAdvancesSignature(listing, k, mtime, bootstrapMtime);
  }
}
