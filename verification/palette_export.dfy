/**
 * The palette export: flatten the parsed stylesheet's declarations, keep
 * the last value of each allow-listed custom property, and build the
 * fixed-shape theme.json document (version, styles, font families and a
 * fifteen-colour palette) from them.
 */
module PaletteExport {
  import opened Wrappers
  import opened TokenExtraction

  /** The custom properties the export reads, in the order the theme lists them. */
  const AllowList: seq<string> := [
    "--bs-primary", "--bs-secondary", "--bs-blue", "--bs-indigo", "--bs-purple",
    "--bs-pink", "--bs-red", "--bs-orange", "--bs-yellow", "--bs-green",
    "--bs-teal", "--bs-cyan", "--bs-white", "--bs-gray", "--bs-gray-dark",
    "--bs-body-font-family", "--bs-font-sans-serif", "--bs-font-monospace",
    "--bs-body-color", "--bs-body-bg"
  ]

  /** The token of the text colour and of the background colour. */
  const TextToken := "--bs-body-color"
  const BackgroundToken := "--bs-body-bg"

  /** The default font style, a reference to the first font family's preset. */
  const DefaultFontStyle := "var(--wp--preset--font-family--default-font-family)"

  /** The font families of the document as (name, slug, token), in document order. */
  const FontTable: seq<(string, string, string)> := [
    ("Default Bootstrap Font", "default-font-family", "--bs-body-font-family"),
    ("Sans Serif", "font-sans-serif", "--bs-font-sans-serif"),
    ("Monospace", "font-monospace", "--bs-font-monospace")
  ]

  /** The palette of the document as (name, slug, token), in document order. */
  const PaletteTable: seq<(string, string, string)> := [
    ("Primary", "primary", "--bs-primary"),
    ("Secondary", "secondary", "--bs-secondary"),
    ("Blue", "blue", "--bs-blue"),
    ("Indigo", "indigo", "--bs-indigo"),
    ("Purple", "purple", "--bs-purple"),
    ("Pink", "pink", "--bs-pink"),
    ("Red", "red", "--bs-red"),
    ("Orange", "orange", "--bs-orange"),
    ("Yellow", "yellow", "--bs-yellow"),
    ("Green", "green", "--bs-green"),
    ("Teal", "teal", "--bs-teal"),
    ("Cyan", "cyan", "--bs-cyan"),
    ("White", "white", "--bs-white"),
    ("Gray", "gray", "--bs-gray"),
    ("Gray Dark", "gray-dark", "--bs-gray-dark")
  ]

  /** The palette's slugs in the order the editor shows them. */
  const PaletteSlugs: seq<string> := [
    "primary", "secondary", "blue", "indigo", "purple", "pink", "red", "orange",
    "yellow", "green", "teal", "cyan", "white", "gray", "gray-dark"
  ]

  /** The font families' slugs in the order the editor shows them. */
  const FontSlugs: seq<string> := ["default-font-family", "font-sans-serif", "font-monospace"]

  /** A document value: a token's text, or JSON `null` where PHP read an undefined key. */
  type Value = Option<string>

  datatype FontFamily = FontFamily(fontFamily: Value, slug: string, name: string)
  datatype PaletteColor = PaletteColor(name: string, slug: string, color: Value)
  datatype ColorStyles = ColorStyles(text: Value, background: Value)
  datatype TypographyStyles = TypographyStyles(fontFamily: string)
  datatype Styles = Styles(color: ColorStyles, typography: TypographyStyles)
  datatype TypographySettings = TypographySettings(fontFamilies: seq<FontFamily>)
  datatype ColorSettings = ColorSettings(palette: seq<PaletteColor>)
  datatype Settings = Settings(typography: TypographySettings, color: ColorSettings)
  /** The theme.json document, before serialisation. */
  datatype ThemeJson = ThemeJson(version: int, styles: Styles, settings: Settings)

  datatype ExportError = MissingToken(name: string)

  /** PHP's `$tokens[$name]`: the value, or `null` when the key is absent. */
  function Lookup(tokens: map<string, string>, name: string): (v: Value)
    ensures v.Some? <==> name in tokens
    ensures v.Some? ==> v.value == tokens[name]
  {
    if name in tokens then Some(tokens[name]) else None
  }

  /** Palette colour `i` has slug `PaletteSlugs[i]` and reads `--bs-<slug>`. */
  lemma PaletteTableOrder()
    ensures |PaletteTable| == |PaletteSlugs| == 15
    ensures forall i :: 0 <= i < |PaletteTable| ==>
      PaletteTable[i].1 == PaletteSlugs[i] && PaletteTable[i].2 == "--bs-" + PaletteSlugs[i]
  {
  }

  /** The palette reads the first fifteen allow-list entries, in allow-list order. */
  lemma PaletteTableTokens()
    ensures forall i :: 0 <= i < |PaletteTable| ==> PaletteTable[i].2 == AllowList[i]
  {
  }

  /**
   * Font family `i` has slug `FontSlugs[i]` and reads allow-list entry
   * `15 + i`; the colour styles read the last two entries; the default font
   * style names the first font family's preset.
   */
  lemma FontAndStyleTokens()
    ensures |FontTable| == |FontSlugs| == 3
    ensures forall i :: 0 <= i < |FontTable| ==>
      FontTable[i].1 == FontSlugs[i] && FontTable[i].2 == AllowList[15 + i]
    ensures TextToken == AllowList[18] && BackgroundToken == AllowList[19]
    ensures DefaultFontStyle == "var(--wp--preset--font-family--" + FontSlugs[0] + ")"
  {
  }

  /** The theme.json document built from the token map. */
  function AssembleDocument(tokens: map<string, string>): (doc: ThemeJson)
    ensures doc.version == 2
    ensures doc.styles.color.text == Lookup(tokens, AllowList[18])
    ensures doc.styles.color.background == Lookup(tokens, AllowList[19])
    ensures |doc.settings.typography.fontFamilies| == |FontSlugs|
    ensures doc.styles.typography.fontFamily ==
      "var(--wp--preset--font-family--" + doc.settings.typography.fontFamilies[0].slug + ")"
    ensures forall i :: 0 <= i < |FontSlugs| ==>
      && doc.settings.typography.fontFamilies[i].slug == FontSlugs[i]
      && doc.settings.typography.fontFamilies[i].fontFamily == Lookup(tokens, AllowList[15 + i])
    ensures forall i :: 0 <= i < |FontSlugs| ==>
      doc.settings.typography.fontFamilies[i].name == FontTable[i].0
    ensures |doc.settings.color.palette| == |PaletteSlugs|
    ensures forall i :: 0 <= i < |PaletteSlugs| ==> doc.settings.color.palette[i].name == PaletteTable[i].0
    ensures forall i :: 0 <= i < |PaletteSlugs| ==>
      && doc.settings.color.palette[i].slug == PaletteSlugs[i]
      && doc.settings.color.palette[i].color == Lookup(tokens, "--bs-" + PaletteSlugs[i])
      && doc.settings.color.palette[i].color == Lookup(tokens, AllowList[i])
  {
    PaletteTableOrder();
    PaletteTableTokens();
    FontAndStyleTokens();
    ThemeJson(
      2,
      Styles(
        ColorStyles(Lookup(tokens, TextToken), Lookup(tokens, BackgroundToken)),
        TypographyStyles(DefaultFontStyle)),
      Settings(
        TypographySettings(
          seq(|FontTable|, i requires 0 <= i < |FontTable| =>
            FontFamily(Lookup(tokens, FontTable[i].2), FontTable[i].1, FontTable[i].0))),
        ColorSettings(
          seq(|PaletteTable|, i requires 0 <= i < |PaletteTable| =>
            PaletteColor(PaletteTable[i].0, PaletteTable[i].1, Lookup(tokens, PaletteTable[i].2))))))
  }

  /** Every value of the document is a token's text: no JSON `null` anywhere. */
  ghost predicate NoNulls(doc: ThemeJson)
  {
    && doc.styles.color.text.Some?
    && doc.styles.color.background.Some?
    && (forall f :: f in doc.settings.typography.fontFamilies ==> f.fontFamily.Some?)
    && (forall c :: c in doc.settings.color.palette ==> c.color.Some?)
  }

  predicate AllPresent(tokens: map<string, string>)
  {
    forall name :: name in AllowList ==> name in tokens
  }

  /** The document has no `null` exactly when every allow-listed token was found. */
  lemma NoNullsIffAllPresent(tokens: map<string, string>)
    ensures NoNulls(AssembleDocument(tokens)) <==> AllPresent(tokens)
  {
    var doc := AssembleDocument(tokens);
    var fonts, palette := doc.settings.typography.fontFamilies, doc.settings.color.palette;
    if NoNulls(doc) {
      forall k | 0 <= k < |AllowList| ensures AllowList[k] in tokens {
        if k < 15 {
          assert palette[k] in palette;
        } else if k < 18 {
          assert fonts[k - 15] in fonts;
        }
      }
    }
    if AllPresent(tokens) {
      forall f | f in fonts ensures f.fontFamily.Some? {
        var i :| 0 <= i < |fonts| && fonts[i] == f;
        assert AllowList[15 + i] in AllowList;
      }
      forall c | c in palette ensures c.color.Some? {
        var i :| 0 <= i < |palette| && palette[i] == c;
        assert AllowList[i] in AllowList;
      }
    }
  }

  /** The index of the first name of `names` that `tokens` lacks, if any. */
  function FirstMissing(tokens: map<string, string>, names: seq<string>): (r: Option<nat>)
    ensures r.None? <==> forall name :: name in names ==> name in tokens
    ensures r.Some? ==> r.value < |names| && names[r.value] !in tokens
    ensures r.Some? ==> forall j :: 0 <= j < r.value ==> names[j] in tokens
  {
    if names == [] then None
    else if names[0] !in tokens then Some(0)
    else match FirstMissing(tokens, names[1..])
      case None => None
      case Some(k) => Some(k + 1)
  }

  /**
   * The document with an explicit error in place of the `null`s: the first
   * allow-listed token (in allow-list order) that is missing.
   */
  function CheckedDocument(tokens: map<string, string>): (r: Result<ThemeJson, ExportError>)
    ensures r.Ok? <==> AllPresent(tokens)
    ensures r.Err? ==> r.error.name in AllowList && r.error.name !in tokens
    ensures r.Err? ==> forall j :: 0 <= j < |AllowList| && AllowList[j] == r.error.name ==>
      forall k :: 0 <= k < j ==> AllowList[k] in tokens
    ensures r.Ok? ==> r.value == AssembleDocument(tokens) && NoNulls(r.value)
  {
    match FirstMissing(tokens, AllowList)
    case Some(i) =>
      AllowListDistinct();
      Err(MissingToken(AllowList[i]))
    case None =>
      NoNullsIffAllPresent(tokens);
      Ok(AssembleDocument(tokens))
  }

  /** No name appears twice on the allow-list. */
  lemma AllowListDistinct()
    ensures forall i, j :: 0 <= i < j < |AllowList| ==> AllowList[i] != AllowList[j]
  {
  }

  /**
   * A stylesheet that declares all twenty tokens gives a document with every
   * value filled; one that never declares an allow-listed token gives a
   * document with a `null` and a missing-token error naming a lacking token.
   */
  lemma ExportCompleteness(decls: seq<Declaration>)
    ensures (forall name :: name in AllowList ==> Declared(decls, name)) <==>
      NoNulls(AssembleDocument(Collect(AllowList, decls)))
    ensures (forall name :: name in AllowList ==> Declared(decls, name)) <==>
      CheckedDocument(Collect(AllowList, decls)).Ok?
  {
    CollectKeys(AllowList, decls);
    NoNullsIffAllPresent(Collect(AllowList, decls));
  }

  /** Without a `--bs-primary` declaration the first palette colour is `null`. */
  lemma MissingPrimary(decls: seq<Declaration>)
    requires !Declared(decls, "--bs-primary")
    ensures AssembleDocument(Collect(AllowList, decls)).settings.color.palette[0].color == None
    ensures CheckedDocument(Collect(AllowList, decls)) == Err(MissingToken("--bs-primary"))
  {
    CollectKeys(AllowList, decls);
  }
}
