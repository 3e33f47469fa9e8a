/**
 * The two pure helpers of pdf.py: the page size of a format in an
 * orientation (`CPdf.TuDxDyFromOrientationFmt`, with the format table
 * `s_mpStrFormatWH` that `CPdf` registers with fpdf) and the cache key of
 * a font (`SFontKey.Str`).
 */
module PdfPages {
  import opened Wrappers
  import opened Text

  /** A page format: a name of the format table or an explicit size in inches. */
  datatype PageFormat = Named(name: string) | Sized(w: real, h: real)

  /** Points per inch: the scale factor `k` of a document in inches. */
  const PointsPerInch: real := 72.0

  /** `s_mpStrFormatWH`: (width, height) in points, short side first. */
  const FormatTable: map<string, (real, real)> := map[
    "a0" := (2383.94, 3370.39),
    "a1" := (1683.78, 2383.94),
    "a2" := (1190.55, 1683.78),
    "a3" := (841.89, 1190.55),
    "a4" := (595.28, 841.89),
    "a5" := (419.53, 595.28),
    "a6" := (297.64, 419.53),
    "a7" := (209.76, 297.64),
    "a8" := (147.40, 209.76),
    "b0" := (2834.65, 4008.19),
    "b1" := (2004.09, 2834.65),
    "b2" := (1417.32, 2004.09),
    "b3" := (1000.63, 1417.32),
    "b4" := (708.66, 1000.63),
    "b5" := (498.90, 708.66),
    "b6" := (354.33, 498.90),
    "b7" := (249.45, 354.33),
    "b8" := (175.75, 249.45),
    "b9" := (124.72, 175.75),
    "b10" := (87.87, 124.72),
    "c0" := (2599.37, 3676.54),
    "c1" := (1836.85, 2599.37),
    "c2" := (1298.27, 1836.85),
    "c3" := (918.43, 1298.27),
    "c4" := (649.13, 918.43),
    "c5" := (459.21, 649.13),
    "c6" := (323.15, 459.21),
    "d0" := (2185.51, 3089.76),
    "letter" := (612.00, 792.00),
    "legal" := (612.00, 1008.00),
    "ledger" := (792.00, 1224.00),
    "tabloid" := (792.00, 1224.00),
    "executive" := (521.86, 756.00),
    "ansi c" := (1224.57, 1584.57),
    "ansi d" := (1584.57, 2449.13),
    "ansi e" := (2449.13, 3169.13),
    "sra0" := (2551.18, 3628.35),
    "sra1" := (1814.17, 2551.18),
    "sra2" := (1275.59, 1814.17),
    "sra3" := (907.09, 1275.59),
    "sra4" := (637.80, 907.09),
    "ra0" := (2437.80, 3458.27),
    "ra1" := (1729.13, 2437.80),
    "ra2" := (1218.90, 1729.13)
  ]

  /**
   * fpdf's `get_page_format` followed by the division by `k`: a name is
   * looked up lower-cased and its size in points converted to inches; an
   * explicit size in inches comes back as it is. The table is a
   * parameter; the program's own is `FormatTable`.
   */
  function FormatSize(table: map<string, (real, real)>, fmt: PageFormat): (r: Result<(real, real)>)
  {
    match fmt
    case Named(name) =>
      if Lower(name) in table then
        Ok((table[Lower(name)].0 / PointsPerInch, table[Lower(name)].1 / PointsPerInch))
      else Err("FPDFPageFormatException: unknown page format")
    case Sized(w, h) => Ok((w, h))
  }

  /**
   * `TuDxDyFromOrientationFmt`: no format gives no size; portrait ("p" or
   * "portrait", any case) keeps (width, height), landscape ("l" or
   * "landscape") swaps them, and any other orientation fails the assert.
   */
  function PageSize(table: map<string, (real, real)>, orientation: string, fmt: Option<PageFormat>): (r: Result<Option<(real, real)>>)
    ensures fmt.None? ==> r == Ok(None)
    ensures r.Ok? && fmt.Some? ==> r.value.Some? && FormatSize(table, fmt.value).Ok?
    ensures fmt.Some? && FormatSize(table, fmt.value).Ok? ==>
      var (w, h) := FormatSize(table, fmt.value).value;
      && (Lower(orientation) in {"p", "portrait"} ==> r == Ok(Some((w, h))))
      && (Lower(orientation) in {"l", "landscape"} ==> r == Ok(Some((h, w))))
      && (Lower(orientation) !in {"p", "portrait", "l", "landscape"} ==> r.Err?)
  {
    if fmt.None? then Ok(None)
    else
      match FormatSize(table, fmt.value)
      case Err(msg) => Err(msg)
      case Ok((w, h)) =>
        var o := Lower(orientation);
        if o == "p" || o == "portrait" then Ok(Some((w, h)))
        else if o == "l" || o == "landscape" then Ok(Some((h, w)))
        else Err("AssertionError: unknown orientation")
  }

  /**
   * Landscape is portrait turned: for any spellings of the two
   * orientations, the same format gives the swapped size, and fails the
   * same way.
   */
  lemma LandscapeSwapsPortrait(table: map<string, (real, real)>, fmt: PageFormat, landscape: string, portrait: string)
    requires Lower(landscape) in {"l", "landscape"} && Lower(portrait) in {"p", "portrait"}
    ensures PageSize(table, landscape, Some(fmt)).Ok? <==> PageSize(table, portrait, Some(fmt)).Ok?
    ensures PageSize(table, landscape, Some(fmt)).Ok? ==>
      var p := PageSize(table, portrait, Some(fmt)).value.value;
      PageSize(table, landscape, Some(fmt)) == Ok(Some((p.1, p.0)))
  {
  }

  /** The orientation names are matched in any letter case: "L" and "Landscape" are landscape. */
  lemma OrientationSpellings()
    ensures Lower("L") == "l" && Lower("l") == "l"
    ensures Lower("P") == "p"
  {
    assert Lower("L")[0] == LowerChar('L');
    assert Lower("l")[0] == LowerChar('l');
    assert Lower("P")[0] == LowerChar('P');
  }

  /**
   * `SFontKey.Str`: the font name lower-cased, then the style as it is;
   * two keys with the same lower-cased name and style give the same string.
   */
  function FontKey(font: string, style: string): (r: string)
    ensures |r| == |font| + |style|
    ensures r[..|font|] == Lower(font) && r[|font|..] == style
  {
    Lower(font) + style
  }

  /** Font names differing only in letter case share a key: the key forgets case. */
  lemma FontKeyIgnoresCase(font: string, style: string)
    ensures FontKey(Lower(font), style) == FontKey(font, style)
  {
    LowerIdempotent(font);
  }
}
