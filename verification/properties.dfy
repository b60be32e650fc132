/** What the layout of a whole text looks like: which glyphs are drawn and
    in what order, how many pages there are, and where glyphs may land. */
module LayoutProperties {
  import opened Glyphs
  import opened Settings
  import opened GlyphLayout

  /** The characters of `t` that get drawn, in order. */
  function Drawn(cat: Catalog, t: string): (r: string)
    ensures forall i :: 0 <= i < |r| ==> Drawable(cat, r[i])
  {
    if t == [] then []
    else
      var p := t[..|t| - 1];
      assert t == p + [t[|t| - 1]];
      Drawn(cat, p) + if Drawable(cat, t[|t| - 1]) then [t[|t| - 1]] else []
  }

  /** `Drawn` is a filter: each drawable character occurs in it as often as
      in the text, every other character not at all. */
  lemma {:induction false} DrawnCounts(cat: Catalog, t: string)
    ensures forall c :: multiset(Drawn(cat, t))[c] == if Drawable(cat, c) then multiset(t)[c] else 0
    decreases |t|
  {
    if t != [] {
      var p := t[..|t| - 1];
      var ch := t[|t| - 1];
      assert t == p + [ch];
      DrawnCounts(cat, p);
      var d := Drawn(cat, p);
      if Drawable(cat, ch) {
        assert Drawn(cat, t) == d + [ch];
        assert multiset(Drawn(cat, t)) == multiset(d) + multiset{ch};
      } else {
        assert Drawn(cat, t) == d;
      }
      assert multiset(t) == multiset(p) + multiset{ch};
    }
  }

  /** Key and size of each draw, in order. */
  function Inks(ops: seq<DrawOp>): (r: seq<Ink>)
    ensures |r| == |ops|
  {
    if ops == [] then [] else Inks(ops[..|ops| - 1]) + [InkOf(ops[|ops| - 1])]
  }

  lemma {:induction false} InksAppend(a: seq<DrawOp>, b: seq<DrawOp>)
    ensures Inks(a + b) == Inks(a) + Inks(b)
    decreases |b|
  {
    if b != [] {
      var b' := b[..|b| - 1];
      var last := b[|b| - 1];
      assert (a + b)[..|a + b| - 1] == a + b';
      assert (a + b)[|a + b| - 1] == last;
      InksAppend(a, b');
      assert Inks(a + b) == Inks(a + b') + [InkOf(last)];
      assert Inks(b) == Inks(b') + [InkOf(last)];
    } else {
      assert a + b == a;
    }
  }

  /** Every draw's key and size show up among the inks. */
  lemma {:induction false} InksMember(ops: seq<DrawOp>, op: DrawOp)
    requires op in ops
    ensures InkOf(op) in Inks(ops)
    decreases |ops|
  {
    var p := ops[..|ops| - 1];
    if op != ops[|ops| - 1] {
      assert ops == p + [ops[|ops| - 1]];
      InksMember(p, op);
    }
  }

  /** The ink one character contributes: its glyph's, or none. */
  function CharInks(cfg: Config, cat: Catalog, ch: char): seq<Ink> {
    if Drawable(cat, ch) then [GlyphInk(cfg, cat, ch)] else []
  }

  /** Reference for what a text puts on paper, character by character,
      ignoring where: the key and scaled size of each drawable character's
      glyph, in text order. */
  function TextInks(cfg: Config, cat: Catalog, t: string): (r: seq<Ink>)
    ensures |r| == |Drawn(cat, t)|
  {
    if t == [] then [] else TextInks(cfg, cat, t[..|t| - 1]) + CharInks(cfg, cat, t[|t| - 1])
  }

  /** One character adds its glyph's ink when it is drawable, nothing otherwise. */
  lemma StepInks(cfg: Config, cat: Catalog, s: State, ch: char)
    ensures Inks(Flatten(Pages(Step(cfg, cat, s, ch))))
            == Inks(Flatten(Pages(s))) + CharInks(cfg, cat, ch)
  {
    var r := Step(cfg, cat, s, ch);
    if Drawable(cat, ch) {
      StepGlyph(cfg, cat, s, ch);
      var op := r.page[|r.page| - 1];
      InksAppend(Flatten(Pages(s)), [op]);
    } else {
      assert Pages(r) == Pages(s);
    }
  }

  /** Reading `t` adds to the document exactly the inks of `t`: one draw per
      drawable character, in order, with that character's key and scaled
      glyph size. */
  lemma {:induction false} RunInks(cfg: Config, cat: Catalog, s: State, t: string)
    ensures Inks(Flatten(Pages(Run(cfg, cat, s, t)))) == Inks(Flatten(Pages(s))) + TextInks(cfg, cat, t)
    decreases |t|
  {
    if t != [] {
      var p := t[..|t| - 1];
      var ch := t[|t| - 1];
      var before := Run(cfg, cat, s, p);
      RunInks(cfg, cat, s, p);
      StepInks(cfg, cat, before, ch);
      var a := Inks(Flatten(Pages(s)));
      var b := TextInks(cfg, cat, p);
      var c := CharInks(cfg, cat, ch);
      assert (a + b) + c == a + (b + c);
    }
  }

  /** The document's draws, taken page after page, carry exactly the inks of
      the text: the catalog key and font-scaled size of each drawable
      character's glyph, in text order. */
  lemma {:induction false} DrawsFollowText(cfg: Config, cat: Catalog, text: string)
    ensures Inks(Flatten(Layout(cfg, cat, text))) == TextInks(cfg, cat, text)
  {
    RunInks(cfg, cat, Start(cfg), text);
  }

  /** `op` draws a catalog glyph at its catalog size times the font size. */
  predicate ScaledGlyph(cfg: Config, cat: Catalog, op: DrawOp) {
    op.key in cat && op.w == cat[op.key].w as real * cfg.fontSize
                  && op.h == cat[op.key].h as real * cfg.fontSize
  }

  /** Every ink of a text is a catalog glyph at its scaled size. */
  lemma {:induction false} TextInksScaled(cfg: Config, cat: Catalog, t: string, ink: Ink)
    requires ink in TextInks(cfg, cat, t)
    ensures ScaledGlyph(cfg, cat, DrawOp(ink.key, 0.0, 0.0, ink.w, ink.h))
    decreases |t|
  {
    var p := t[..|t| - 1];
    if ink !in CharInks(cfg, cat, t[|t| - 1]) {
      TextInksScaled(cfg, cat, p, ink);
    }
  }

  /** Every ink among the inks of some draws is the ink of one of them. */
  lemma {:induction false} InksSource(ops: seq<DrawOp>, ink: Ink)
    requires ink in Inks(ops)
    ensures exists op :: op in ops && InkOf(op) == ink
    decreases |ops|
  {
    var p := ops[..|ops| - 1];
    assert Inks(ops) == Inks(p) + [InkOf(ops[|ops| - 1])];
    if ink != InkOf(ops[|ops| - 1]) {
      InksSource(p, ink);
      var op :| op in p && InkOf(op) == ink;
      assert op in ops;
    }
  }

  /** Draws carrying some earlier draws' inks followed by the inks of a text
      are scaled catalog glyphs when the earlier ones are, one more per
      drawable character of the text. */
  lemma {:induction false} InksAfterScaled(cfg: Config, cat: Catalog, ops: seq<DrawOp>, prior: seq<DrawOp>, t: string)
    requires forall op :: op in prior ==> ScaledGlyph(cfg, cat, op)
    requires Inks(ops) == Inks(prior) + TextInks(cfg, cat, t)
    ensures |ops| == |prior| + |Drawn(cat, t)|
    ensures forall op :: op in ops ==> ScaledGlyph(cfg, cat, op)
  {
    forall op | op in ops
      ensures ScaledGlyph(cfg, cat, op)
    {
      InksMember(ops, op);
      if InkOf(op) in Inks(prior) {
        InksSource(prior, InkOf(op));
      } else {
        TextInksScaled(cfg, cat, t, InkOf(op));
      }
    }
  }

  /** Reading a text from any state adds one draw per drawable character (a
      character that is neither a newline nor a space and whose lower-cased
      form is a catalog key), and every draw, old or new, is a catalog glyph
      at its size times the font size. */
  lemma {:induction false} RunDrawCount(cfg: Config, cat: Catalog, s: State, t: string)
    requires forall op :: op in Flatten(Pages(s)) ==> ScaledGlyph(cfg, cat, op)
    ensures |Flatten(Pages(Run(cfg, cat, s, t)))| == |Flatten(Pages(s))| + |Drawn(cat, t)|
    ensures forall op :: op in Flatten(Pages(Run(cfg, cat, s, t))) ==> ScaledGlyph(cfg, cat, op)
  {
    RunInks(cfg, cat, s, t);
    InksAfterScaled(cfg, cat, Flatten(Pages(Run(cfg, cat, s, t))), Flatten(Pages(s)), t);
  }

  /** The number of draws in a document is the number of drawable characters
      of its text; each draw is a catalog glyph at its scaled size. */
  lemma {:induction false} DrawCount(cfg: Config, cat: Catalog, text: string)
    ensures |Flatten(Layout(cfg, cat, text))| == |Drawn(cat, text)|
    ensures forall op :: op in Flatten(Layout(cfg, cat, text)) ==> ScaledGlyph(cfg, cat, op)
  {
    assert Flatten(Pages(Start(cfg))) == [] by {
      FlattenSnoc([], []);
    }
    RunDrawCount(cfg, cat, Start(cfg), text);
  }

  /** Text with no drawable character (only newlines, spaces and unknown
      characters) changes no page, however far down newlines move the cursor. */
  lemma {:induction false} NoGlyphNoPageChange(cfg: Config, cat: Catalog, s: State, t: string)
    requires forall i :: 0 <= i < |t| ==> !Drawable(cat, t[i])
    ensures Pages(Run(cfg, cat, s, t)) == Pages(s)
    decreases |t|
  {
    if t != [] {
      NoGlyphNoPageChange(cfg, cat, s, t[..|t| - 1]);
    }
  }

  /** In particular a text none of whose characters is drawn renders to one
      empty page. */
  lemma {:induction false} UndrawableTextIsOneEmptyPage(cfg: Config, cat: Catalog, text: string)
    requires forall i :: 0 <= i < |text| ==> !Drawable(cat, text[i])
    ensures Layout(cfg, cat, text) == [[]]
  {
    NoGlyphNoPageChange(cfg, cat, Start(cfg), text);
  }

  /** How many characters of `t` start a new page when read from `s`. */
  function PageBreaks(cfg: Config, cat: Catalog, s: State, t: string): nat
    decreases |t|
  {
    if t == [] then 0
    else
      var p := t[..|t| - 1];
      PageBreaks(cfg, cat, s, p) + if StartsPage(cfg, cat, Run(cfg, cat, s, p), t[|t| - 1]) then 1 else 0
  }

  /** The document has one page plus one per page break; the last page is
      there even when nothing is drawn on it. */
  lemma {:induction false} PageCount(cfg: Config, cat: Catalog, s: State, t: string)
    ensures |Pages(Run(cfg, cat, s, t))| == |Pages(s)| + PageBreaks(cfg, cat, s, t)
    decreases |t|
  {
    if t != [] {
      PageCount(cfg, cat, s, t[..|t| - 1]);
      StepPages(cfg, cat, Run(cfg, cat, s, t[..|t| - 1]), t[|t| - 1]);
    }
  }

  lemma {:induction false} LayoutPageCount(cfg: Config, cat: Catalog, text: string)
    ensures |Layout(cfg, cat, text)| == 1 + PageBreaks(cfg, cat, Start(cfg), text)
  {
    PageCount(cfg, cat, Start(cfg), text);
  }

  /** A draw either starts at the left margin or ends by the line end. */
  predicate WithinLine(cfg: Config, op: DrawOp) {
    op.x == cfg.leftMargin || op.x + op.w <= LineEnd(cfg)
  }

  /** Wrapping guarantee: every draw either ends by the line end or was moved
      to the left margin. Nothing more is promised: a glyph wider than the
      line is drawn at the left margin and overflows. */
  lemma {:induction false} RunWithinLine(cfg: Config, cat: Catalog, s: State, t: string)
    requires forall op :: op in Flatten(Pages(s)) ==> WithinLine(cfg, op)
    ensures forall op :: op in Flatten(Pages(Run(cfg, cat, s, t))) ==> WithinLine(cfg, op)
    decreases |t|
  {
    if t != [] {
      var before := Run(cfg, cat, s, t[..|t| - 1]);
      var ch := t[|t| - 1];
      RunWithinLine(cfg, cat, s, t[..|t| - 1]);
      if Drawable(cat, ch) {
        StepGlyph(cfg, cat, before, ch);
      } else {
        assert Pages(Step(cfg, cat, before, ch)) == Pages(before);
      }
    }
  }

  lemma {:induction false} LayoutWithinLine(cfg: Config, cat: Catalog, text: string)
    ensures forall op :: op in Flatten(Layout(cfg, cat, text)) ==> WithinLine(cfg, op)
  {
    RunWithinLine(cfg, cat, Start(cfg), text);
  }

  /** A line position that is either on or above the bottom margin, or the
      first line of a page. */
  predicate OnPage(cfg: Config, y: real) {
    y >= cfg.bottomMargin || y == TopY(cfg)
  }

  /** Without newlines the page-break rule keeps every draw, and the cursor,
      at or above the bottom margin or on a page's first line. Newlines are
      the only way below it, since they never check the margin. */
  lemma {:induction false} RunStaysOnPage(cfg: Config, cat: Catalog, s: State, t: string)
    requires '\n' !in t
    requires OnPage(cfg, s.y)
    requires forall op :: op in Flatten(Pages(s)) ==> OnPage(cfg, op.y)
    ensures OnPage(cfg, Run(cfg, cat, s, t).y)
    ensures forall op :: op in Flatten(Pages(Run(cfg, cat, s, t))) ==> OnPage(cfg, op.y)
    decreases |t|
  {
    if t != [] {
      var p := t[..|t| - 1];
      var ch := t[|t| - 1];
      assert ch in t;
      assert '\n' !in p by {
        assert forall i :: 0 <= i < |p| ==> p[i] == t[i];
      }
      RunStaysOnPage(cfg, cat, s, p);
      var before := Run(cfg, cat, s, p);
      StepPages(cfg, cat, before, ch);
      if Drawable(cat, ch) {
        StepGlyph(cfg, cat, before, ch);
      } else {
        assert Pages(Step(cfg, cat, before, ch)) == Pages(before);
      }
    }
  }

  lemma {:induction false} LayoutStaysOnPage(cfg: Config, cat: Catalog, text: string)
    requires '\n' !in text
    ensures forall op :: op in Flatten(Layout(cfg, cat, text)) ==> OnPage(cfg, op.y)
  {
    RunStaysOnPage(cfg, cat, Start(cfg), text);
  }

  /** `n` newlines in a row: the cursor ends at the left margin `n` lines
      lower, on the same page, with nothing drawn, whatever the bottom margin. */
  lemma {:induction false} Newlines(cfg: Config, cat: Catalog, s: State, n: nat)
    requires n > 0
    ensures var r := Run(cfg, cat, s, seq(n, _ => '\n'));
            r.x == cfg.leftMargin && r.y == s.y - n as real * LineAdvance(cfg) && Pages(r) == Pages(s)
  {
    var t := seq(n, _ => '\n');
    if n > 1 {
      Newlines(cfg, cat, s, n - 1);
      assert t[..n - 1] == seq(n - 1, _ => '\n');
    } else {
      assert t[..0] == [];
    }
  }
}
