/** The greedy glyph-layout loop: a cursor walks the text one character at a
    time, placing glyph images, wrapping lines at the right margin and
    starting a new page when a wrap falls below the bottom margin.

    The canvas is modelled by what is drawn on it: each page is the list of
    draw operations issued while it was current, in order. */
module GlyphLayout {
  import opened Glyphs
  import opened Settings

  /** One image placement: the catalog key of the glyph, the lower-left
      corner and the drawn size. */
  datatype DrawOp = DrawOp(key: string, x: real, y: real, w: real, h: real)

  type Page = seq<DrawOp>

  /** Layout state: the cursor, the pages already finished, and the draw
      operations of the current page. */
  datatype State = State(x: real, y: real, done: seq<Page>, page: Page)

  /** The document a state stands for: the finished pages, then the current one. */
  function Pages(s: State): seq<Page> {
    s.done + [s.page]
  }

  /** All draw operations of a document, page after page. */
  function Flatten(pages: seq<Page>): seq<DrawOp> {
    if pages == [] then [] else Flatten(pages[..|pages| - 1]) + pages[|pages| - 1]
  }

  lemma {:induction false} FlattenSnoc(pages: seq<Page>, p: Page)
    ensures Flatten(pages + [p]) == Flatten(pages) + p
  {
    assert (pages + [p])[..|pages|] == pages;
  }

  function LineAdvance(cfg: Config): real {
    cfg.lineHeight * cfg.fontSize
  }

  function SpaceAdvance(cfg: Config): real {
    cfg.spaceWidth * cfg.fontSize
  }

  function LetterAdvance(cfg: Config): real {
    cfg.letterSpacing * cfg.fontSize
  }

  /** The x a glyph's right edge may not pass without a wrap. */
  function LineEnd(cfg: Config): real {
    PageWidth - cfg.rightMargin
  }

  /** The y of the first line of every page. */
  function TopY(cfg: Config): real {
    PageHeight - cfg.topMargin - LineAdvance(cfg)
  }

  /** The state before the first character: one fresh, empty page and the
      cursor at the start of its first line. */
  function Start(cfg: Config): (s: State)
    ensures s.x == cfg.leftMargin
    ensures s.y == PageHeight - cfg.topMargin - cfg.lineHeight * cfg.fontSize
    ensures Pages(s) == [[]]
  {
    State(cfg.leftMargin, TopY(cfg), [], [])
  }

  /** A character that gets drawn: not a newline, not a space, and its
      lower-cased key is in the catalog. */
  predicate Drawable(cat: Catalog, ch: char) {
    ch != '\n' && ch != ' ' && KeyOf(ch) in cat
  }

  /** Key and drawn size of a character's glyph: the catalog size scaled by
      the font size. */
  datatype Ink = Ink(key: string, w: real, h: real)

  function InkOf(op: DrawOp): Ink {
    Ink(op.key, op.w, op.h)
  }

  function GlyphInk(cfg: Config, cat: Catalog, ch: char): Ink
    requires Drawable(cat, ch)
  {
    var d := cat[KeyOf(ch)];
    Ink(KeyOf(ch), d.w as real * cfg.fontSize, d.h as real * cfg.fontSize)
  }

  /** The glyph for `ch` would cross the line end from the cursor of `s`. */
  predicate Wraps(cfg: Config, cat: Catalog, s: State, ch: char)
    requires Drawable(cat, ch)
  {
    s.x + GlyphInk(cfg, cat, ch).w > LineEnd(cfg)
  }

  /** Reading `ch` in state `s` starts a new page: it is a glyph that wraps,
      and the wrapped line lies below the bottom margin. */
  predicate StartsPage(cfg: Config, cat: Catalog, s: State, ch: char) {
    Drawable(cat, ch) && Wraps(cfg, cat, s, ch) && s.y - LineAdvance(cfg) < cfg.bottomMargin
  }

  /** Where a glyph of scaled width `w` goes: it stays on the line if it
      fits, otherwise the cursor wraps; a wrap below the bottom margin
      finishes the page and restarts at the top of a new one. */
  function Place(cfg: Config, s: State, w: real): State {
    if s.x + w > LineEnd(cfg) then
      if s.y - LineAdvance(cfg) < cfg.bottomMargin then
        Start(cfg).(done := s.done + [s.page])
      else
        s.(x := cfg.leftMargin, y := s.y - LineAdvance(cfg))
    else
      s
  }

  /** One character of the layout loop. */
  function Step(cfg: Config, cat: Catalog, s: State, ch: char): State {
    if ch == '\n' then
      s.(x := cfg.leftMargin, y := s.y - LineAdvance(cfg))
    else if ch == ' ' then
      s.(x := s.x + SpaceAdvance(cfg))
    else if KeyOf(ch) !in cat then
      s
    else
      var ink := GlyphInk(cfg, cat, ch);
      var at := Place(cfg, s, ink.w);
      at.(x := at.x + ink.w + LetterAdvance(cfg),
          page := at.page + [DrawOp(ink.key, at.x, at.y, ink.w, ink.h)])
  }

  /** A newline returns to the left margin one line lower. It draws nothing
      and never starts a page, wherever the cursor ends up. */
  lemma StepNewline(cfg: Config, cat: Catalog, s: State)
    ensures var r := Step(cfg, cat, s, '\n');
            r.x == cfg.leftMargin && r.y == s.y - cfg.lineHeight * cfg.fontSize && Pages(r) == Pages(s)
  {
  }

  /** A space moves the cursor right by the scaled space width and does
      nothing else. */
  lemma StepSpace(cfg: Config, cat: Catalog, s: State)
    ensures var r := Step(cfg, cat, s, ' ');
            r.x == s.x + cfg.spaceWidth * cfg.fontSize && r.y == s.y && Pages(r) == Pages(s)
  {
  }

  /** A character whose lower-cased key is not in the catalog is skipped:
      cursor, pages and draws are all unchanged. */
  lemma StepUnknown(cfg: Config, cat: Catalog, s: State, ch: char)
    requires ch != '\n' && ch != ' ' && KeyOf(ch) !in cat
    ensures Step(cfg, cat, s, ch) == s
  {
  }

  /** A known glyph adds exactly one draw at the end of the current page, of
      its catalog size scaled by the font size. It is drawn at the incoming
      cursor when it fits before the line end, at the left margin otherwise
      (with no second check, so a glyph wider than the line still overflows),
      and the cursor then advances past it by the scaled letter spacing. */
  lemma StepGlyph(cfg: Config, cat: Catalog, s: State, ch: char)
    requires Drawable(cat, ch)
    ensures var r := Step(cfg, cat, s, ch);
            && r.page != []
            && var op := r.page[|r.page| - 1];
            && Flatten(Pages(r)) == Flatten(Pages(s)) + [op]
            && InkOf(op) == GlyphInk(cfg, cat, ch)
            && op.y == r.y
            && (if Wraps(cfg, cat, s, ch) then op.x == cfg.leftMargin
                else op.x == s.x && op.y == s.y)
            && r.x == op.x + op.w + cfg.letterSpacing * cfg.fontSize
  {
    var ink := GlyphInk(cfg, cat, ch);
    var at := Place(cfg, s, ink.w);
    var op := DrawOp(ink.key, at.x, at.y, ink.w, ink.h);
    var r := Step(cfg, cat, s, ch);
    assert r == at.(x := at.x + ink.w + LetterAdvance(cfg), page := at.page + [op]);
    FlattenSnoc(r.done, r.page);
    FlattenSnoc(s.done, s.page);
    if StartsPage(cfg, cat, s, ch) {
      assert at.done == s.done + [s.page] && at.page == [];
      FlattenSnoc(s.done + [s.page], [op]);
      assert Flatten(Pages(r)) == Flatten(Pages(s)) + [op];
    } else {
      assert at.done == s.done && at.page == s.page;
      assert Flatten(Pages(r)) == Flatten(Pages(s)) + [op];
    }
    assert r.page[|r.page| - 1] == op;
  }

  /** Pages: a new page starts exactly when a glyph wraps to a line below the
      bottom margin; the finished page is kept as it was and the glyph opens
      the new page on its first line. A wrap that stays on the page moves the
      cursor down one line. Otherwise the finished pages are untouched. */
  lemma StepPages(cfg: Config, cat: Catalog, s: State, ch: char)
    ensures var r := Step(cfg, cat, s, ch);
            && |Pages(r)| == |Pages(s)| + (if StartsPage(cfg, cat, s, ch) then 1 else 0)
            && (StartsPage(cfg, cat, s, ch) ==>
                  r.done == s.done + [s.page] && |r.page| == 1 && r.y == TopY(cfg))
            && (!StartsPage(cfg, cat, s, ch) ==> r.done == s.done)
            && (Drawable(cat, ch) && Wraps(cfg, cat, s, ch) && !StartsPage(cfg, cat, s, ch) ==>
                  r.y == s.y - LineAdvance(cfg) && r.y >= cfg.bottomMargin)
  {
  }

  /** The state after reading all of `t` from `s`, left to right. */
  function Run(cfg: Config, cat: Catalog, s: State, t: string): (r: State)
    ensures |s.done| <= |r.done| && r.done[..|s.done|] == s.done
    decreases |t|
  {
    if t == [] then s
    else Step(cfg, cat, Run(cfg, cat, s, t[..|t| - 1]), t[|t| - 1])
  }

  lemma {:induction false} RunSnoc(cfg: Config, cat: Catalog, s: State, t: string, ch: char)
    ensures Run(cfg, cat, s, t + [ch]) == Step(cfg, cat, Run(cfg, cat, s, t), ch)
  {
    assert (t + [ch])[..|t|] == t;
  }

  /** The document `text` renders to: every page, in order, each the list of
      draws made on it. */
  function Layout(cfg: Config, cat: Catalog, text: string): seq<Page> {
    Pages(Run(cfg, cat, Start(cfg), text))
  }
}
