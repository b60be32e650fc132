/** The render entry point written the way `render_pdf` is: load the
    catalog, read the settings, then one loop over the text with a mutable
    cursor and a canvas that collects pages. */
module Render {
  import opened Glyphs
  import opened Settings
  import opened GlyphLayout
  import opened LayoutProperties

  /** The body of the loop for one character, on mutable cursor and canvas
      variables: it does what the layout step prescribes. */
  method Advance(cfg: Config, chars: Catalog, x0: real, y0: real, done0: seq<Page>, page0: Page, ch: char)
    returns (x: real, y: real, done: seq<Page>, page: Page)
    ensures State(x, y, done, page) == Step(cfg, chars, State(x0, y0, done0, page0), ch)
  {
    x, y, done, page := x0, y0, done0, page0;
    if ch == '\n' {
      x := cfg.leftMargin;
      y := y - cfg.lineHeight * cfg.fontSize;
      return;
    }
    if ch == ' ' {
      x := x + cfg.spaceWidth * cfg.fontSize;
      return;
    }
    var key := [Lower(ch)];
    if key !in chars {
      return;
    }
    var scaledW := chars[key].w as real * cfg.fontSize;
    var scaledH := chars[key].h as real * cfg.fontSize;
    assert key == KeyOf(ch) && Drawable(chars, ch);
    assert Ink(key, scaledW, scaledH) == GlyphInk(cfg, chars, ch);
    if x + scaledW > PageWidth - cfg.rightMargin {
      x := cfg.leftMargin;
      y := y - cfg.lineHeight * cfg.fontSize;
      if y < cfg.bottomMargin {
        done := done + [page];
        page := [];
        x := cfg.leftMargin;
        y := PageHeight - cfg.topMargin - cfg.lineHeight * cfg.fontSize;
      }
    }
    assert State(x, y, done, page) == Place(cfg, State(x0, y0, done0, page0), scaledW);
    page := page + [DrawOp(key, x, y, scaledW, scaledH)];
    x := x + scaledW + cfg.letterSpacing * cfg.fontSize;
  }

  /** Renders `text` with the given settings against the given directory
      listing. The result is the layout of the text, always at least one page,
      with one draw per drawable character. */
  method RenderPdf(text: string, settings: map<string, real>, files: seq<ImageFile>)
    returns (pages: seq<Page>)
    ensures pages == Layout(FromSettings(settings), LoadCatalog(files), text)
    ensures |pages| >= 1
    ensures |Flatten(pages)| == |Drawn(LoadCatalog(files), text)|
  {
    var chars := LoadCatalog(files);
    var cfg := FromSettings(settings);
    var done: seq<Page> := [];
    var page: Page := [];
    var x := cfg.leftMargin;
    var y := PageHeight - cfg.topMargin - cfg.lineHeight * cfg.fontSize;
    var i := 0;
    while i < |text|
      invariant 0 <= i <= |text|
      invariant State(x, y, done, page) == Run(cfg, chars, Start(cfg), text[..i])
    {
      assert text[..i + 1] == text[..i] + [text[i]];
      RunSnoc(cfg, chars, Start(cfg), text[..i], text[i]);
      x, y, done, page := Advance(cfg, chars, x, y, done, page, text[i]);
      i := i + 1;
    }
    assert text[..|text|] == text;
    pages := done + [page];
    DrawCount(cfg, chars, text);
  }
}
