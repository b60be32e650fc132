/** The glyph catalog: which files of the character directory become glyphs,
    under which key, and how a typed character finds its glyph.

    The directory listing and the image decoder are not modelled: the
    directory arrives as a sequence of entries, each carrying the pixel size
    its image would report. */
module Glyphs {

  /** Pixel size of one glyph image (width, height). */
  datatype Dims = Dims(w: nat, h: nat)

  /** One directory entry: its file name and the size of the image it holds. */
  datatype ImageFile = ImageFile(name: string, dims: Dims)

  /** Catalog key -> size of the glyph image registered under it. */
  type Catalog = map<string, Dims>

  predicate IsPng(f: string) {
    |f| >= 4 && f[|f| - 4..] == ".png"
  }

  predicate AllDots(s: string) {
    forall i :: 0 <= i < |s| ==> s[i] == '.'
  }

  /** The root that `os.path.splitext` returns for a file name ending in
      ".png": the name without its extension, except when everything before
      the final dot is dots (a "hidden" name such as "..png"), which has no
      extension at all. */
  function Stem(f: string): (r: string)
    requires IsPng(f)
    ensures r <= f
    ensures r == f || r + ".png" == f
    ensures r == f <==> AllDots(f[..|f| - 4])
  {
    var root := f[..|f| - 4];
    if AllDots(root) then f else root
  }

  /** Stripping ".png" off `k + ".png"` gives `k` back, for every stem that is
      not made of dots only. */
  lemma {:induction false} StemRoundTrip(k: string)
    requires !AllDots(k)
    ensures IsPng(k + ".png")
    ensures Stem(k + ".png") == k
  {
    assert (k + ".png")[..|k|] == k;
    assert (k + ".png")[|k|..] == ".png";
  }

  /** A file is registered under key `k` when it is a ".png" whose stem is `k`. */
  predicate Registers(f: ImageFile, k: string) {
    IsPng(f.name) && Stem(f.name) == k
  }

  /** The catalog built from a directory listing, taken in listing order: every
      ".png" file is registered under its stem, and when two files share a
      stem the later one wins. Keys are the stems exactly as written; nothing
      is lower-cased here. */
  function LoadCatalog(files: seq<ImageFile>): Catalog
  {
    if files == [] then map[]
    else
      var prev := LoadCatalog(files[..|files| - 1]);
      var f := files[|files| - 1];
      if IsPng(f.name) then prev[Stem(f.name) := f.dims] else prev
  }

  /** `files[i]` is the last entry of the listing registered under `k`. */
  predicate LastFor(files: seq<ImageFile>, k: string, i: int) {
    && 0 <= i < |files|
    && Registers(files[i], k)
    && forall j :: i < j < |files| ==> !Registers(files[j], k)
  }

  /** Every ".png" file of the listing gets its stem into the catalog. */
  lemma {:induction false} LoadCatalogComplete(files: seq<ImageFile>, i: nat)
    requires i < |files| && IsPng(files[i].name)
    ensures Stem(files[i].name) in LoadCatalog(files)
    decreases |files|
  {
    if i < |files| - 1 {
      LoadCatalogComplete(files[..|files| - 1], i);
    }
  }

  /** Only stems of ".png" files become keys, and the size stored under a key
      is that of the LAST file of the listing registered under it. */
  lemma {:induction false} LoadCatalogLastWins(files: seq<ImageFile>, k: string)
    requires k in LoadCatalog(files)
    ensures exists i :: LastFor(files, k, i) && LoadCatalog(files)[k] == files[i].dims
    decreases |files|
  {
    var n := |files| - 1;
    var prev := files[..n];
    if Registers(files[n], k) {
      assert LastFor(files, k, n);
    } else {
      assert files[..n] == prev;
      assert k in LoadCatalog(prev) && LoadCatalog(files)[k] == LoadCatalog(prev)[k];
      LoadCatalogLastWins(prev, k);
      var i :| LastFor(prev, k, i) && LoadCatalog(prev)[k] == prev[i].dims;
      assert files[i] == prev[i];
      forall j | i < j < |files|
        ensures !Registers(files[j], k)
      {
        if j < n { assert files[j] == prev[j]; }
      }
      assert LastFor(files, k, i);
    }
  }

  predicate IsUpper(c: char) {
    'A' <= c <= 'Z'
  }

  /** ASCII lower-casing of one character. */
  function Lower(c: char): (r: char)
    ensures !IsUpper(r)
    ensures !IsUpper(c) ==> r == c
    ensures IsUpper(c) ==> r as int - c as int == 32
  {
    if IsUpper(c) then (c as int + 32) as char else c
  }

  /** The key a typed character is looked up under: its lower-cased form, as a
      one-character string. */
  function KeyOf(c: char): string {
    [Lower(c)]
  }

  /** Lookup ignores case: an upper-case letter and its lower-case partner
      always look up the same key, and that key is the lower-case one. */
  lemma LookupIgnoresCase(c: char)
    requires IsUpper(c)
    ensures KeyOf(c) == KeyOf((c as int + 32) as char)
    ensures KeyOf(c) == [(c as int + 32) as char]
  {
  }

  /** A catalog key that is not a single character, or that contains an
      upper-case letter, is never the lookup key of any character: the glyph
      registered under it can never be drawn. */
  lemma {:induction false} UnreachableKey(k: string)
    requires |k| != 1 || exists i :: 0 <= i < |k| && IsUpper(k[i])
    ensures forall c: char :: KeyOf(c) != k
  {
    forall c: char
      ensures KeyOf(c) != k
    {
      assert |KeyOf(c)| == 1 && !IsUpper(KeyOf(c)[0]);
    }
  }
}
