# Bootscore SCSS compiler glue, modelled in Dafny

This project models `inc/scss-compiler.php` of the Bootscore WordPress theme. The file holds two short pipelines.

* **Style build** (`bootscore_compile_scss`). It picks the theme directory: the child (stylesheet) directory when the child ships `scss/main.scss` and child-theme mode is on, the parent (template) directory otherwise. It computes a freshness signature: the sum of the modification times of every `scss/` entry whose name contains `.scss` or `.css`, plus the parent's `scss/bootstrap/bootstrap.scss`. It rebuilds when the signature exceeds the stored marker (the `bootscore_scss_modified_timestamp` theme mod), when `css/main.css` is missing, or in the `development` environment. A rebuild writes the CSS, writes `css/main.map` in development, and stores the signature as the new marker. A compiler exception ends the request through `wp_die` and writes nothing.
* **Palette export** (`bootscore_compile_json`). It parses the selected directory's `css/main.css` into rule sets. It keeps the last value of each of 20 allow-listed `--bs-*` custom properties. It builds a fixed-shape theme.json document (version 2, text and background colours, three font families, fifteen palette colours) and writes it into the stylesheet directory.

Modules:

* `Strings`: the PHP string primitives involved (`strpos`, `dirname`, `substr($s, 0, -3)`).
* `ThemeDirs`: directory precedence and import paths.
* `Freshness`: the signature fold and its properties.
* `StyleBuild`: one build run as a function of the persisted state (`Build`), with its rebuild rule, frame conditions and idempotence.
* `TokenExtraction`: the extraction loops and the allow-list / last-write-wins properties.
* `PaletteExport`: the document and its shape.
* `ThemeSite`: class `Site`, which holds the marker, the files and the written documents. Its methods `CompileScss` and `CompileJson` run the two pipelines in place.

The SCSS compiler and the CSS parser are function-typed parameters. The directory listing, the modification times and the WordPress host values (`is_child_theme()`, the two theme directories, the environment type) are explicit inputs.

Three behaviours of the code are easy to misread; the model follows the code:

* The extra import path (the parent's `scss/`) is added when the child theme **has** its own `scss/main.scss` and child-theme mode is on. It is not added for child themes that lack sources.
* A missing token is read by PHP 8 as `null` (with a warning), and theme.json is written anyway. `Site.CompileJson` does the same: document values are `Option<string>` and `None` is JSON `null`. `PaletteExport.CheckedDocument` is a variant that returns an explicit missing-token error instead of `null`s; it is proved to agree with the document whenever every token is present.
* theme.json always goes to the stylesheet directory, even when the CSS was read from the template directory.

## Model

| member | source | states |
|---|---|---|
| `Strings.StrPos` | inc/scss-compiler.php:96 | the result is the first offset where the needle occurs; `None` (PHP `false`) exactly when it occurs nowhere |
| `Strings.DirnameOfNested` | inc/scss-compiler.php:35 | `dirname` (modelled by `Strings.Dirname`) of `<dir>/scss/main.scss` is `<dir>/scss`, the first import path |
| `Strings.DropLastThree` | inc/scss-compiler.php:69 | `substr($s, 0, -3)` is a prefix three characters shorter that gives back `$s` when its last three characters are appended, and "" for shorter strings |
| `ThemeDirs.ThemeDirectory` | inc/scss-compiler.php:23-30 | the stylesheet directory when the child has `scss/main.scss` (`ThemeDirs.ChildHasScss`, which is `bootscore_child_has_scss` at :111-114) and is a child theme; the template directory when either fails |
| `ThemeDirs.ImportPaths` | inc/scss-compiler.php:35-39 | `[<child>/scss, <parent>/scss/]` exactly when the child directory is used, `[<parent>/scss]` otherwise |
| `ThemeDirs.SelectionIgnoresArtifacts` | inc/scss-compiler.php:111-114 | creating a `<x>/css/main.css` or `.map` file changes neither the child-sources test, the selected directory nor the import paths |
| `Freshness.IsTracked` | inc/scss-compiler.php:96 | an entry is tracked iff its name contains `.scss` or `.css` as a substring |
| `Freshness.LastModifiedScss` | inc/scss-compiler.php:89-104 | the loop's total is the tracked entries' mtime sum plus the bootstrap entry's mtime |
| `Freshness.TrackedSumAppend` | inc/scss-compiler.php:93-101 | the signature of a concatenated listing is the sum of the parts' signatures |
| `Freshness.UntrackedContributesNothing` | inc/scss-compiler.php:96-100 | inserting an entry matching neither substring anywhere in the listing leaves the signature unchanged |
| `Freshness.SignatureMonotone` | inc/scss-compiler.php:94-103 | when no tracked mtime decreases (names fixed), the signature does not decrease |
| `Freshness.TouchAdvancesSignature` | inc/scss-compiler.php:94-103 | raising one tracked entry's mtime strictly raises the signature |
| `StyleBuild.SourceMapBesideCss` | inc/scss-compiler.php:67-70 | the source-map path `StyleBuild.SourceMapPath` (built at :69) of `<dir>/css/main.css` is `<dir>/css/main.map`, a different file |
| `StyleBuild.Build` | inc/scss-compiler.php:41-78 | a compile is attempted iff signature > marker, or CSS missing, or development (the :57 condition, named `StyleBuild.NeedsRebuild`); a throw gives `wp_die`'s message and changes nothing; a success sets the marker to the signature, writes the CSS, writes the map only in development and leaves every other file as it was |
| `StyleBuild.IdempotentOutsideDevelopment` | inc/scss-compiler.php:57-72 | outside development, a run after a successful rebuild with the same signature writes nothing and keeps the marker, whatever the compiler |
| `StyleBuild.TouchTriggersRebuild` | inc/scss-compiler.php:41-57 | once the marker equals the signature, touching any tracked source makes the next run compile |
| `TokenExtraction.ExtractTokens` | inc/scss-compiler.php:137-151 | the nested loops compute the token map of the flattened declarations, rule sets in order |
| `TokenExtraction.CollectKeys` | inc/scss-compiler.php:139-151 | a name is in the token map iff it is allow-listed and some declaration sets it |
| `TokenExtraction.CollectLastWins` | inc/scss-compiler.php:142-149 | an allow-listed name maps to the value of its last declaration |
| `PaletteExport.PaletteTableOrder` | inc/scss-compiler.php:184-262 | the palette has 15 entries with slugs primary … gray-dark in that order, and entry `i` reads `--bs-<slug>` |
| `PaletteExport.PaletteTableTokens` | inc/scss-compiler.php:135-262 | palette entry `i` reads allow-list entry `i` |
| `PaletteExport.FontAndStyleTokens` | inc/scss-compiler.php:153-183 | three font families with slugs default-font-family, font-sans-serif, font-monospace reading allow-list entries 15–17; text and background read body-color and body-bg; the default font style names the first family's preset |
| `PaletteExport.AssembleDocument` | inc/scss-compiler.php:153-264 | version 2; text/background are the body-color/body-bg tokens; 3 font families and 15 palette colours in fixed slug order with their display names, each value the token it names (`null` when the token is absent) |
| `PaletteExport.NoNullsIffAllPresent` | inc/scss-compiler.php:153-264 | the document holds no `null` iff all 20 allow-listed tokens are in the map |
| `PaletteExport.CheckedDocument` | inc/scss-compiler.php:153-264 | succeeds iff every allow-listed token is present, and then equals the document with no `null`; otherwise it names the first missing allow-listed token in allow-list order |
| `PaletteExport.ExportCompleteness` | inc/scss-compiler.php:135-264 | the stylesheet declares all 20 tokens iff the document has no `null` iff the checked export succeeds |
| `PaletteExport.MissingPrimary` | inc/scss-compiler.php:186-190 | with no `--bs-primary` declaration the first palette colour is `null` and the checked export reports `--bs-primary` |
| `ThemeSite.ExportReadsBuiltCss` | inc/scss-compiler.php:124-133 | after a successful build, the export reads exactly the CSS the compiler produced |
| `ThemeSite.Site.constructor` | inc/scss-compiler.php:42 | a marker that was never stored reads as 0 |
| `ThemeSite.Site.CompileScss` | inc/scss-compiler.php:16-79 | the new marker, files and outcome are those of `StyleBuild.Build` at the listing's signature; documents are untouched |
| `ThemeSite.Site.CompileJson` | inc/scss-compiler.php:120-268 | the document is built from the tokens of the parsed selected CSS and stored at `<stylesheet>/theme.json`; marker and files are untouched |

## Left out

- The SCSS compiler (scssphp) and the CSS parser (Sabberworm) are foreign libraries. They are opaque function parameters: the compiler receives the source text, the import paths and whether development source-map options were set.
- The source-map URL, base path and source root options are left out. They are strings built from `site_url` and `ABSPATH`; the model records only whether they were set.
- Output style (compressed) and the `SOURCE_MAP_FILE` setting are compiler configuration and are not modelled.
- Directories are not modelled, so `mkdir` of `css/` is left out. Files are a map from path to text. Writes are not atomic in the source; the model writes whole files.
- `scandir` and `stat` are inputs: the listing (name, mtime) and the bootstrap entry's mtime. A failing `stat` (which PHP would add as 0) is not modelled.
- `file_get_contents` of a missing file returns `false` in PHP. The model passes the compiler or parser the empty string, which is what `false` becomes as a string.
- PHP's `int` overflow into `float` in the signature sum is not modelled. Mtimes are unbounded integers.
- `Strings.Dirname` follows PHP's `dirname` for '/'-separated paths only. Windows separators are not modelled.
- `in_array` compares loosely. Every allow-listed name is a non-numeric string, so this equals string equality, which is what the model uses.
- `json_encode`, `fopen`/`fwrite`/`fclose` and the vendor autoloader are left out. theme.json is stored as the structured document in `Site.documents`.
- `wp_die` ends the request. It becomes the `Died` outcome carrying the message; rendering stops outside the model.
- Failed writes are not modelled. In the source, `mkdir` and `file_put_contents` (inc/scss-compiler.php:63, :66, :69) only warn and return `false` on failure, and `set_theme_mod` at :72 still stores the new signature; a failed overwrite of `css/main.css` therefore leaves the stale CSS in place and later non-development runs treat it as current. In the model a `Rebuilt` run always writes its files.
