/**
 * The theme's persisted state and its two entry points: the style build,
 * which may rewrite the stylesheet and move the freshness marker, and the
 * palette export, which writes theme.json into the stylesheet directory.
 */
module ThemeSite {
  import opened ThemeDirs
  import opened Freshness
  import opened StyleBuild
  import opened TokenExtraction
  import opened PaletteExport

  /** The theme.json file of a theme directory. */
  function ThemeJsonPath(dir: string): string { dir + "/theme.json" }

  /** The CSS the palette export reads from state `s`. */
  function ExportedCss(s: BuildState, host: Host): string
  {
    ReadOrEmpty(s.files, MainCssPath(ThemeDirectory(host, s.files.Keys)))
  }

  /**
   * After a successful build, the export reads exactly the CSS that build
   * produced: writing the stylesheet and its map never changes which
   * directory is selected.
   */
  lemma ExportReadsBuiltCss(s: BuildState, host: Host, signature: int, compile: CompileRequest -> CompileOutcome)
    requires Build(s, host, signature, compile).1 == Rebuilt
    ensures ExportedCss(Build(s, host, signature, compile).0, host) == compile(Request(s, host)).css
  {
    var s' := Build(s, host, signature, compile).0;
    var dir := BuildDirectory(s, host);
    var keys := s.files.Keys + {dir + "/css/main.css"};
    SelectionIgnoresArtifacts(host, s.files.Keys, dir, "/css/main.css");
    if IsDevelopment(host) {
      SelectionIgnoresArtifacts(host, keys, dir, "/css/main.map");
      assert s'.files.Keys == keys + {dir + "/css/main.map"};
    } else {
      assert s'.files.Keys == keys;
    }
  }

  /** The site as the theme sees it: the marker theme mod, the files, and the exported documents. */
  class Site {
    /** The `bootscore_scss_modified_timestamp` theme mod. */
    var marker: int
    /** Text files by path. */
    var files: map<string, string>
    /** theme.json files by path, kept as documents (serialisation is not modelled). */
    var documents: map<string, ThemeJson>

    /** A site whose marker was never stored reads it as 0. */
    constructor (files: map<string, string>)
      ensures marker == 0 && this.files == files && documents == map[]
    {
      marker := 0;
      this.files := files;
      documents := map[];
    }

    function State(): BuildState
      reads this
    {
      BuildState(marker, files)
    }

    /**
     * `bootscore_compile_scss`: compute the signature from the `scss/`
     * listing, then compile and write when the rebuild rule holds.
     */
    method CompileScss(host: Host, listing: Listing, bootstrapMtime: int,
                       compile: CompileRequest -> CompileOutcome)
      returns (outcome: BuildOutcome)
      modifies this
      ensures (State(), outcome) == Build(old(State()), host, Signature(listing, bootstrapMtime), compile)
      ensures documents == old(documents)
    {
      var existing := files.Keys;
      var themeDirectory := ThemeDirectory(host, existing);
      var scssFile := MainScssPath(themeDirectory);
      var cssFile := MainCssPath(themeDirectory);
      var importPaths := ImportPaths(host, existing);

      var lastModified := LastModifiedScss(listing, bootstrapMtime);
      var storedModified := marker;
      var isDevelopment := host.environmentType == DevelopmentEnvironment;

      if lastModified > storedModified || cssFile !in files || isDevelopment {
        var compiled := compile(CompileRequest(ReadOrEmpty(files, scssFile), importPaths, isDevelopment));
        match compiled
        case Threw(message) =>
          outcome := Died(DiePrefix + message);
        case Compiled(css, sourceMap) =>
          files := files[cssFile := css];
          if isDevelopment {
            files := files[SourceMapPath(cssFile) := sourceMap];
          }
          marker := lastModified;
          outcome := Rebuilt;
      } else {
        outcome := UpToDate;
      }
    }

    /**
     * `bootscore_compile_json`: parse the selected directory's CSS, extract
     * the allow-listed tokens and write theme.json into the stylesheet
     * directory.
     */
    method CompileJson(host: Host, parse: string -> seq<RuleSet>) returns (doc: ThemeJson)
      modifies this
      ensures doc == AssembleDocument(Collect(AllowList, Flatten(parse(ExportedCss(old(State()), host)))))
      ensures documents == old(documents)[ThemeJsonPath(host.stylesheetDir) := doc]
      ensures files == old(files) && marker == old(marker)
    {
      var themeDirectory := ThemeDirectory(host, files.Keys);
      var ruleSets := parse(ReadOrEmpty(files, MainCssPath(themeDirectory)));
      var customPalette := ExtractTokens(AllowList, ruleSets);
      doc := AssembleDocument(customPalette);
      documents := documents[ThemeJsonPath(host.stylesheetDir) := doc];
    }
  }
}
