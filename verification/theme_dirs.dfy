/**
 * Which theme directory the compiler works in, and where it looks for
 * imports: the child (stylesheet) directory wins only when the child theme
 * ships its own `scss/main.scss` and the site runs in child-theme mode.
 */
module ThemeDirs {
  import opened Strings

  /** What the host platform says about the active theme. */
  datatype Host = Host(
    stylesheetDir: string,   // get_stylesheet_directory(): the child theme, or the theme itself
    templateDir: string,     // get_template_directory(): the parent theme
    isChildTheme: bool,      // is_child_theme()
    environmentType: string  // wp_get_environment_type()
  )

  /** The root style source of a theme directory. */
  function MainScssPath(dir: string): string { dir + "/scss/main.scss" }

  /** The compiled stylesheet of a theme directory. */
  function MainCssPath(dir: string): string { dir + "/css/main.css" }

  /** The child theme has its own root style source (`existing` are the paths that exist). */
  predicate ChildHasScss(host: Host, existing: set<string>)
  {
    MainScssPath(host.stylesheetDir) in existing
  }

  /** The one condition under which the child's own sources are compiled. */
  predicate UsesChildDirectory(host: Host, existing: set<string>)
  {
    ChildHasScss(host, existing) && host.isChildTheme
  }

  /** The theme directory whose sources are compiled and whose CSS is read. */
  function ThemeDirectory(host: Host, existing: set<string>): (dir: string)
    ensures host.isChildTheme && ChildHasScss(host, existing) ==> dir == host.stylesheetDir
    ensures !host.isChildTheme ==> dir == host.templateDir
    ensures !ChildHasScss(host, existing) ==> dir == host.templateDir
  {
    if ChildHasScss(host, existing) && host.isChildTheme then host.stylesheetDir
    else host.templateDir
  }

  /**
   * The compiler's import search path: the directory of the selected root
   * style source, and, when the child's sources are used, the parent's
   * `scss/` after it.
   */
  function ImportPaths(host: Host, existing: set<string>): (paths: seq<string>)
    ensures UsesChildDirectory(host, existing) ==>
      paths == [host.stylesheetDir + "/scss", host.templateDir + "/scss/"]
    ensures !UsesChildDirectory(host, existing) ==> paths == [host.templateDir + "/scss"]
  {
    var dir := ThemeDirectory(host, existing);
    DirnameOfNested(dir, "scss", "main.scss");
    assert MainScssPath(dir) == dir + "/" + "scss" + "/" + "main.scss";
    assert dir + "/" + "scss" == dir + "/scss";
    [Dirname(MainScssPath(dir))]
      + (if host.isChildTheme && ChildHasScss(host, existing) then [host.templateDir + "/scss/"] else [])
  }

  /** No path of the shape `<x>/css/main.xxx` is the root style source of any directory. */
  lemma {:induction false} ArtifactIsNotScss(x: string, suffix: string, y: string)
    requires |suffix| == 13 && suffix[0] == '/'
    ensures x + suffix != MainScssPath(y)
  {
    var p, q := x + suffix, MainScssPath(y);
    if |p| == |q| {
      assert p[|x|] == '/';
      assert q[|x|] == "/scss/main.scss"[2] == 'c';
    }
  }

  /** Creating a `<x>/css/main.xxx` file never changes which directory is selected. */
  lemma {:induction false} SelectionIgnoresArtifacts(host: Host, existing: set<string>, x: string, suffix: string)
    requires |suffix| == 13 && suffix[0] == '/'
    ensures ChildHasScss(host, existing + {x + suffix}) == ChildHasScss(host, existing)
    ensures ThemeDirectory(host, existing + {x + suffix}) == ThemeDirectory(host, existing)
    ensures ImportPaths(host, existing + {x + suffix}) == ImportPaths(host, existing)
  {
    ArtifactIsNotScss(x, suffix, host.stylesheetDir);
  }
}
