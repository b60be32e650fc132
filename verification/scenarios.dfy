/** Worked layouts on small inputs: the wrap, page-break, overflow, scaling
    and key-case behaviour of the loop on concrete configurations. */
module Scenarios {
  import opened Glyphs
  import opened Settings
  import opened GlyphLayout
  import opened LayoutProperties

  /** A catalog with one glyph, "a", of the given pixel size. */
  function JustA(w: nat, h: nat): Catalog {
    map["a" := Dims(w, h)]
  }

  /** With the right margin at 300 points only two 100-point glyphs fit on a
      line (50 + 100 + 5 + 100 = 255 <= 295.3 < 360): the third wraps to the
      left margin one line lower, on the same page. */
  lemma TwoGlyphsPerLine()
    ensures var cfg := Defaults.(rightMargin := 300.0);
            var top := TopY(cfg);
            Layout(cfg, JustA(100, 50), "aaa")
            == [[DrawOp("a", 50.0, top, 100.0, 50.0),
                 DrawOp("a", 155.0, top, 100.0, 50.0),
                 DrawOp("a", 50.0, top - 90.0, 100.0, 50.0)]]
  {
    var cfg := Defaults.(rightMargin := 300.0);
    var cat := JustA(100, 50);
    var top := TopY(cfg);
    RunSnoc(cfg, cat, Start(cfg), "", 'a');
    assert "" + ['a'] == "a";
    RunSnoc(cfg, cat, Start(cfg), "a", 'a');
    assert "a" + ['a'] == "aa";
    RunSnoc(cfg, cat, Start(cfg), "aa", 'a');
    assert "aa" + ['a'] == "aaa";
    var s1 := Run(cfg, cat, Start(cfg), "a");
    assert s1 == State(155.0, top, [], [DrawOp("a", 50.0, top, 100.0, 50.0)]);
    var s2 := Run(cfg, cat, Start(cfg), "aa");
    assert s2 == State(260.0, top, [], s1.page + [DrawOp("a", 155.0, top, 100.0, 50.0)]);
    assert Wraps(cfg, cat, s2, 'a') && !StartsPage(cfg, cat, s2, 'a');
    var s3 := Run(cfg, cat, Start(cfg), "aaa");
    assert s3.done == [] && s3.page == s2.page + [DrawOp("a", 50.0, top - 90.0, 100.0, 50.0)];
    assert s3.page == [DrawOp("a", 50.0, top, 100.0, 50.0),
                       DrawOp("a", 155.0, top, 100.0, 50.0),
                       DrawOp("a", 50.0, top - 90.0, 100.0, 50.0)];
    assert Layout(cfg, cat, "aaa") == [s3.page];
  }

  /** With the bottom margin at 650 points one line fits per page; the
      second line is still drawn on the first page, below the bottom margin,
      because a newline never checks for a page break. */
  lemma NewlineNeverBreaksPage()
    ensures var cfg := Defaults.(bottomMargin := 650.0);
            var top := TopY(cfg);
            && Layout(cfg, JustA(10, 10), "a\na")
               == [[DrawOp("a", 50.0, top, 10.0, 10.0), DrawOp("a", 50.0, top - 90.0, 10.0, 10.0)]]
            && top - 90.0 < cfg.bottomMargin
  {
    var cfg := Defaults.(bottomMargin := 650.0);
    var cat := JustA(10, 10);
    var top := TopY(cfg);
    RunSnoc(cfg, cat, Start(cfg), "", 'a');
    assert "" + ['a'] == "a";
    RunSnoc(cfg, cat, Start(cfg), "a", '\n');
    assert "a" + ['\n'] == "a\n";
    RunSnoc(cfg, cat, Start(cfg), "a\n", 'a');
    assert "a\n" + ['a'] == "a\na";
    var s1 := Run(cfg, cat, Start(cfg), "a");
    assert s1 == State(65.0, top, [], [DrawOp("a", 50.0, top, 10.0, 10.0)]);
    var s2 := Run(cfg, cat, Start(cfg), "a\n");
    assert s2 == State(50.0, top - 90.0, [], s1.page);
    assert !Wraps(cfg, cat, s2, 'a');
    var s3 := Run(cfg, cat, Start(cfg), "a\na");
    assert s3.done == [] && s3.page == s1.page + [DrawOp("a", 50.0, top - 90.0, 10.0, 10.0)];
    assert s3.page == [DrawOp("a", 50.0, top, 10.0, 10.0), DrawOp("a", 50.0, top - 90.0, 10.0, 10.0)];
    assert Layout(cfg, cat, "a\na") == [s3.page];
  }

  /** The same one-line-per-page configuration with a wrap instead of a
      newline: the wrapped line falls below the bottom margin, so the third
      glyph opens a second page at its first line. */
  lemma WrapBreaksPage()
    ensures var cfg := Defaults.(rightMargin := 300.0, bottomMargin := 650.0);
            var top := TopY(cfg);
            Layout(cfg, JustA(100, 50), "aaa")
            == [[DrawOp("a", 50.0, top, 100.0, 50.0), DrawOp("a", 155.0, top, 100.0, 50.0)],
                [DrawOp("a", 50.0, top, 100.0, 50.0)]]
  {
    var cfg := Defaults.(rightMargin := 300.0, bottomMargin := 650.0);
    var cat := JustA(100, 50);
    var top := TopY(cfg);
    RunSnoc(cfg, cat, Start(cfg), "", 'a');
    assert "" + ['a'] == "a";
    RunSnoc(cfg, cat, Start(cfg), "a", 'a');
    assert "a" + ['a'] == "aa";
    RunSnoc(cfg, cat, Start(cfg), "aa", 'a');
    assert "aa" + ['a'] == "aaa";
    var s1 := Run(cfg, cat, Start(cfg), "a");
    assert s1 == State(155.0, top, [], [DrawOp("a", 50.0, top, 100.0, 50.0)]);
    var s2 := Run(cfg, cat, Start(cfg), "aa");
    assert s2 == State(260.0, top, [], s1.page + [DrawOp("a", 155.0, top, 100.0, 50.0)]);
    assert StartsPage(cfg, cat, s2, 'a');
    var s3 := Run(cfg, cat, Start(cfg), "aaa");
    assert s3.done == [s2.page] && s3.page == [DrawOp("a", 50.0, top, 100.0, 50.0)];
    assert s2.page == [DrawOp("a", 50.0, top, 100.0, 50.0), DrawOp("a", 155.0, top, 100.0, 50.0)];
    assert Layout(cfg, cat, "aaa") == [s2.page, s3.page];
  }

  /** A glyph wider than the whole line wraps even as the first character of
      the text, leaving the first line empty, and is drawn at the left margin
      past the line end: there is no second check. */
  lemma WideGlyphOverflows()
    ensures var top := TopY(Defaults);
            && Layout(Defaults, JustA(600, 10), "a") == [[DrawOp("a", 50.0, top - 90.0, 600.0, 10.0)]]
            && 50.0 + 600.0 > LineEnd(Defaults)
  {
    var cat := JustA(600, 10);
    RunSnoc(Defaults, cat, Start(Defaults), "", 'a');
    assert "" + ['a'] == "a";
    assert Wraps(Defaults, cat, Start(Defaults), 'a') && !StartsPage(Defaults, cat, Start(Defaults), 'a');
    var s1 := Run(Defaults, cat, Start(Defaults), "a");
    assert s1.done == [] && s1.page == [DrawOp("a", 50.0, TopY(Defaults) - 90.0, 600.0, 10.0)];
    assert Layout(Defaults, cat, "a") == [s1.page];
  }

  /** At font size 2 the glyph is drawn at twice its pixel size and the
      letter spacing and space width advance twice as far: the second glyph
      starts at 50 + 20 + 2 * 5 + 2 * 35 = 150. */
  lemma FontSizeScales()
    ensures var cfg := Defaults.(fontSize := 2.0);
            var top := TopY(cfg);
            && top == PageHeight - 50.0 - 180.0
            && Layout(cfg, JustA(10, 20), "a a")
               == [[DrawOp("a", 50.0, top, 20.0, 40.0), DrawOp("a", 150.0, top, 20.0, 40.0)]]
  {
    var cfg := Defaults.(fontSize := 2.0);
    var cat := JustA(10, 20);
    var top := TopY(cfg);
    RunSnoc(cfg, cat, Start(cfg), "", 'a');
    assert "" + ['a'] == "a";
    RunSnoc(cfg, cat, Start(cfg), "a", ' ');
    assert "a" + [' '] == "a ";
    RunSnoc(cfg, cat, Start(cfg), "a ", 'a');
    assert "a " + ['a'] == "a a";
    var s1 := Run(cfg, cat, Start(cfg), "a");
    assert s1 == State(80.0, top, [], [DrawOp("a", 50.0, top, 20.0, 40.0)]);
    var s2 := Run(cfg, cat, Start(cfg), "a ");
    assert s2 == s1.(x := 150.0);
    assert !Wraps(cfg, cat, s2, 'a');
    var s3 := Run(cfg, cat, Start(cfg), "a a");
    assert s3.done == [] && s3.page == s1.page + [DrawOp("a", 150.0, top, 20.0, 40.0)];
    assert s3.page == [DrawOp("a", 50.0, top, 20.0, 40.0), DrawOp("a", 150.0, top, 20.0, 40.0)];
    assert Layout(cfg, cat, "a a") == [s3.page];
  }

  /** A glyph file named with an upper-case letter is registered under that
      upper-case key, which no lookup ever produces: neither "A" nor "a" is
      drawn, and the text renders to one empty page. */
  lemma UpperCaseFileNeverDrawn()
    ensures var cat := LoadCatalog([ImageFile("A.png", Dims(10, 10))]);
            && "A" in cat
            && Layout(Defaults, cat, "Aa") == [[]]
  {
    var files := [ImageFile("A.png", Dims(10, 10))];
    assert "A"[0] != '.';
    StemRoundTrip("A");
    assert "A" + ".png" == "A.png";
    assert files[..0] == [];
    var cat := LoadCatalog(files);
    assert cat == map["A" := Dims(10, 10)];
    var text := "Aa";
    assert KeyOf(text[0]) == "a" && KeyOf(text[1]) == "a";
    UndrawableTextIsOneEmptyPage(Defaults, cat, text);
  }
}
