# Handwriting layout model

A Dafny model of the handwriting renderer's page layout: the loop in
`render_pdf` that walks the input text one character at a time, places one
pre-rendered glyph image per known character, wraps lines at the right margin
and starts a new page when a wrap falls below the bottom margin; together with
the rule by which `load_chars` names glyph files and the eight layout settings
with their defaults.

The model is functional. The canvas is represented by what is drawn on it:
a document is a sequence of pages, each the ordered list of draw operations
`(key, x, y, w, h)` issued while that page was current. One layout step
(`GlyphLayout.Step`) handles one character; `GlyphLayout.Run` folds it over the
text; `GlyphLayout.Layout` is the finished document. `Render.RenderPdf` is the
loop as the source writes it, on mutable cursor and canvas variables, and is
proved to compute exactly `Layout`.

Modules:

- `Glyphs` (glyphs.dfy): directory entries, the catalog, `os.path.splitext`
  as it applies to `.png` names, last-one-wins registration, ASCII lower-casing
  for lookup.
- `Settings` (settings.dfy): A4 page size in points, the configuration record,
  defaults and per-request overrides.
- `GlyphLayout` (layout.dfy): cursor state, the per-character step and one
  lemma per branch of it, the fold and the document.
- `LayoutProperties` (properties.dfy): whole-text properties: which inks are
  drawn and in what order, the number of draws, the number of pages, the wrap
  guarantee, and where newlines can and cannot take the cursor.
- `Render` (render.dfy): the imperative loop.
- `Scenarios` (scenarios.dfy): small worked layouts.

Numbers are Dafny `real`s. The A4 size is kept as the exact fractions
75600/127 by 106920/127 points (21 cm and 29.7 cm at 72 points per inch).

Two behaviours of the code a reader might not expect:

- Catalog keys are the file stems exactly as written, not lower-cased
  (app.py:21, app.py:24), while lookup lower-cases the typed character
  (app.py:61). A glyph file named `A.png` is therefore never drawn, for either
  `A` or `a` (`Scenarios.UpperCaseFileNeverDrawn`, `Glyphs.UnreachableKey`).
- A newline never starts a page (app.py:52-55). With one line per page, two
  newline-separated lines are both drawn on the first page, the second below
  the bottom margin (`Scenarios.NewlineNeverBreaksPage`); a second page appears
  only through a wrap (`Scenarios.WrapBreaksPage`).

## Model

| member | source | states |
|---|---|---|
| Glyphs.Stem | app.py:20-21 | the root of a `.png` name is the name without its `.png` suffix, or the whole name when the part before the suffix is only dots |
| Glyphs.StemRoundTrip | app.py:21 | stripping the extension off `k + ".png"` gives back `k` for every `k` that is not all dots |
| Glyphs.LoadCatalogComplete | app.py:19-24 | every `.png` file of the listing has its stem registered as a catalog key |
| Glyphs.LoadCatalogLastWins | app.py:19-24 | every catalog key is the stem of some `.png` file, and the size stored under it is that of the last such file in listing order |
| Glyphs.Lower | app.py:61 | lower-casing yields no upper-case letter, leaves other characters alone and maps an upper-case letter 32 code points up |
| Glyphs.LookupIgnoresCase | app.py:61 | an upper-case letter and its lower-case partner are looked up under the same, lower-case, key |
| Glyphs.UnreachableKey | app.py:61-63 | a catalog key that is not one character long or holds an upper-case letter is the lookup key of no character |
| Settings.FromSettings | app.py:34-41 | each of the eight fields is the value given under its name or else its default; unknown names do not matter; no recognised name gives the defaults |
| Settings.SettingsRoundTrip | app.py:34-41 | a settings object naming every field of a configuration selects that configuration |
| Settings.UnknownSettingsIgnored | app.py:34-41 | entries under names other than the eight settings names do not change the configuration |
| GlyphLayout.Start | app.py:47-48 | the layout starts on one empty page with x at the left margin and y at page height minus top margin minus line height times font size |
| GlyphLayout.StepNewline | app.py:52-55 | a newline sets x to the left margin, lowers y by line height times font size, draws nothing and starts no page |
| GlyphLayout.StepSpace | app.py:57-59 | a space advances x by space width times font size and leaves y and every page unchanged |
| GlyphLayout.StepUnknown | app.py:61-64 | a character whose lower-cased key is not in the catalog leaves the whole state unchanged |
| GlyphLayout.StepGlyph | app.py:66-89 | a known glyph appends exactly one draw with its key and catalog size times font size, at the incoming x if it fits before the line end and at the left margin otherwise, and x then advances by the drawn width plus letter spacing times font size |
| GlyphLayout.StepPages | app.py:75-84 | a page starts exactly when a glyph wraps to a line below the bottom margin; the finished page is kept and the glyph opens the new page on its first line; otherwise finished pages are unchanged and a wrap lowers y by one line, staying at or above the bottom margin |
| LayoutProperties.DrawnCounts | app.py:50-64 | the drawn characters of a text are its characters other than newline, space and unknown ones, each as often as in the text |
| LayoutProperties.RunInks | app.py:50-89 | reading a text appends to the document's draws exactly the text's inks: key and scaled size of each drawable character, in order |
| LayoutProperties.DrawsFollowText | app.py:47-89 | the draws of the whole document, page after page, carry exactly the inks of the text in text order |
| LayoutProperties.RunDrawCount | app.py:50-89 | from any state, reading a text adds exactly one draw per drawable character, and every draw, old or new, is a catalog glyph at its size times the font size |
| LayoutProperties.DrawCount | app.py:50-89 | the number of draws equals the number of drawable characters, and every draw is a catalog glyph at its size times the font size |
| LayoutProperties.NoGlyphNoPageChange | app.py:50-64 | a text made only of newlines, spaces and unknown characters changes no page and draws nothing |
| LayoutProperties.UndrawableTextIsOneEmptyPage | app.py:47-91 | a text with no drawable character renders to exactly one empty page |
| LayoutProperties.PageCount | app.py:80-84 | the page count grows by exactly the number of page breaks while reading a text |
| LayoutProperties.LayoutPageCount | app.py:80-91 | a document has one page plus one per page break, the current page counted even when nothing is drawn on it |
| LayoutProperties.RunWithinLine | app.py:75-78 | every draw either ends by the line end or starts at the left margin |
| LayoutProperties.LayoutWithinLine | app.py:75-87 | in the whole document every draw ends by the line end or starts at the left margin |
| LayoutProperties.RunStaysOnPage | app.py:75-84 | without newlines, the cursor and every draw stay at or above the bottom margin or on a page's first line |
| LayoutProperties.LayoutStaysOnPage | app.py:47-87 | for a text with no newline every draw lies at or above the bottom margin or on a page's first line |
| LayoutProperties.Newlines | app.py:52-55 | n newlines in a row put x at the left margin and y n lines lower, on the same pages, however low that is |
| Render.Advance | app.py:50-89 | one pass of the loop body on mutable cursor and canvas variables does what the layout step prescribes |
| Render.RenderPdf | app.py:30-91 | the whole render loop computes the layout of the text, has at least one page, and makes one draw per drawable character |
| Scenarios.TwoGlyphsPerLine | app.py:75-89 | with two glyphs per line, three glyphs give one page whose third draw is at the left margin one line lower |
| Scenarios.NewlineNeverBreaksPage | app.py:52-55 | with one line per page, `a\na` still gives one page, its second glyph below the bottom margin |
| Scenarios.WrapBreaksPage | app.py:75-84 | with one line per page and two glyphs per line, the third glyph opens a second page at its first line |
| Scenarios.WideGlyphOverflows | app.py:75-87 | a glyph wider than the line wraps even as the first character and is drawn at the left margin past the line end |
| Scenarios.FontSizeScales | app.py:71-89 | at font size 2 the glyph is drawn at twice its size and spacing, space width and line height advance twice as far |
| Scenarios.UpperCaseFileNeverDrawn | app.py:19-24 | a file `A.png` is registered under `A`, yet neither `A` nor `a` is drawn |

## Left out

- The web routes `index` and `generate` (app.py:96-125): HTTP plumbing, the
  400 response for empty text, the mapping of exceptions to 500, and the
  timestamped download name, which depends on the wall clock.
- Reading the glyph directory and decoding images (app.py:19, app.py:23,
  app.py:68-69): the listing is a parameter, a sequence of entries in listing
  order, each carrying the pixel size its image reports. The file behind a
  key is the same at load time and draw time, so the size is stored in the
  catalog.
- The maximum glyph height (app.py:17, app.py:25): computed but never used by
  the layout.
- The PDF canvas (app.py:44-45, app.py:87, app.py:91-93): drawing is recorded
  as a draw operation naming the catalog key (the image path is determined by
  it), a page break as the end of a page; alpha masking and encoding are not
  modelled.
- IEEE floating point (rounding, infinities, NaN): all arithmetic is exact
  real arithmetic, so settings such as a NaN or infinite font size, which a
  JSON request can carry, and under which the wrap and page-break comparisons
  behave differently, are not modelled.
- Settings values that are not numbers: the settings object is a map from
  names to reals, so the failures such values cause are not modelled.
- Glyphs.Lower: ASCII lower-casing only, because Python's full Unicode
  `str.lower` (which can even return several characters) is not modelled.
- Glyphs.Stem: only defined for names ending in `.png`, the only names the
  source passes to `os.path.splitext`.
- LayoutProperties.UndrawableTextIsOneEmptyPage: the document is the canvas's
  pages as the layout loop leaves them, with the current page counted even
  when nothing was drawn on it; whether the PDF library's final save emits an
  empty last page is a property of that library, not of this model.
- LayoutProperties.LayoutPageCount: counts the current page even when empty,
  on the same assumption about the canvas; once a page break has happened the
  current page always holds a draw, so only a text with no drawable character
  is affected.
- Determinism of rendering: `Layout` is a function, so the same text and
  settings always give the same document; no separate lemma states it.
