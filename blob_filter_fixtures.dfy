/** The fixtures of libgit2's blob filter test: nine buffers, the
 *  statistics the scanner must report for each, and the bytes the CRLF
 *  filter must store in the object database for a path declared `text`.
 *
 *  Each fixture is spelled as a concatenation of words and line endings.
 *  Every piece is scanned and filtered on its own, and the results are put
 *  together with `Glue`, which needs only that no seam splits a CR-LF pair
 *  and that the first piece already decides the byte-order mark. */
module BlobFilterFixtures {
  import opened BufText
  import opened CrlfFilter

  /** The bytes of a string literal whose characters are all ASCII. */
  function Ascii(s: string): (r: seq<uint8>)
    requires forall i :: 0 <= i < |s| ==> s[i] < 128 as char
    ensures |r| == |s|
    ensures forall i :: 0 <= i < |s| ==> r[i] as int == s[i] as int
  {
    seq(|s|, i requires 0 <= i < |s| => s[i] as int as uint8)
  }

  // Line endings.
  const LfOnly: seq<uint8> := [0x0A]
  const CrOnly: seq<uint8> := [0x0D]
  const CrLf: seq<uint8> := [0x0D, 0x0A]
  const LfCr: seq<uint8> := [0x0A, 0x0D]

  // Words: runs of printable bytes.
  const Foo := Ascii("foo")
  const Bar := Ascii("bar")
  const Both := Ascii("both")
  const Reversed := Ascii("reversed")
  const Again := Ascii("again")
  const Problems := Ascii("problems")
  const Digits := Ascii("123")
  const Abc := Ascii("abc")
  /** Three bytes above 0x7F (octal 255, 254 and 253). */
  const HighBytes: seq<uint8> := [0xAD, 0xAC, 0xAB]
  /** The UTF-8 byte-order mark. */
  const Utf8Bom: seq<uint8> := [0xEF, 0xBB, 0xBF]
  const ThisIsUtf8 := Ascii("This is UTF-8")
  /** Two hiragana characters in UTF-8. */
  const Kana: seq<uint8> := [0xE3, 0x81, 0xBB, 0xE3, 0x81, 0x92]
  /** The UTF-16-BE byte-order mark. */
  const Utf16BeBom: seq<uint8> := [0xFE, 0xFF]

  /** An embedded NUL and the control bytes 0x01-0x04. */
  const Controls: seq<uint8> := [NUL, 0x01, 0x02, 0x03, 0x04]
  /** "This!" in UTF-16-BE: a NUL before each ASCII byte. */
  const This16: seq<uint8> := [NUL, 0x54, NUL, 0x68, NUL, 0x69, NUL, 0x73, NUL, 0x21]

  // Lines: a word and its line ending.
  const FooLf := Foo + LfOnly
  const BarLf := Bar + LfOnly
  const FooCr := Foo + CrOnly
  const BarCr := Bar + CrOnly
  const FooCrLf := Foo + CrLf
  const BarCrLf := Bar + CrLf
  const BothCrLf := Both + CrLf
  const BothLf := Both + LfOnly
  const ReversedLfCr := Reversed + LfCr
  const AgainLf := Again + LfOnly
  const ProblemsCr := Problems + CrOnly
  const DigitsLf := Digits + LfOnly
  const AbcHigh := Abc + HighBytes
  const KanaCrLf := Kana + Kana + CrLf
  const KanaLf := Kana + Kana + LfOnly
  const ThisIsUtf8Lf := ThisIsUtf8 + LfOnly
  const BinaryCrLf := Controls + AbcHigh + CrLf
  const BinaryLf := Controls + AbcHigh + LfOnly

  // `g_raw`: the bytes of each fixture literal, without the terminating NUL.
  const Raw0: seq<uint8> := []
  const Raw1 := FooLf + BarLf
  const Raw2 := FooCr + BarCr
  const Raw3 := FooCrLf + BarCrLf
  const Raw4 := FooLf + BarCr + BothCrLf + ReversedLfCr + AgainLf + ProblemsCr
  const Raw5 := DigitsLf + BinaryCrLf
  const Raw6 := Utf8Bom + ThisIsUtf8Lf
  const Raw7 := Utf8Bom + KanaCrLf + KanaCrLf
  const Raw8 := Utf16BeBom + This16
  const Raw: seq<seq<uint8>> := [Raw0, Raw1, Raw2, Raw3, Raw4, Raw5, Raw6, Raw7, Raw8]

  /** `g_len`: -1 asks for `strlen` of the literal; the two fixtures with an
   *  embedded NUL give their length explicitly. */
  const DeclaredLengths: seq<int> := [-1, -1, -1, -1, -1, 17, -1, -1, 12]

  /** `g_stats`, field by field in the order of the C structure: mark, NUL,
   *  CR, LF, CR-LF, printable, non-printable. */
  const ExpectedStats: seq<TextStats> := [
    TextStats(None, 0, 0, 0, 0, 0, 0),
    TextStats(None, 0, 0, 2, 0, 6, 0),
    TextStats(None, 0, 2, 0, 0, 6, 0),
    TextStats(None, 0, 2, 2, 2, 6, 0),
    TextStats(None, 0, 4, 4, 1, 31, 0),
    TextStats(None, 1, 1, 2, 1, 9, 5),
    TextStats(Utf8, 0, 0, 1, 0, 16, 0),
    TextStats(Utf8, 0, 2, 2, 2, 27, 0),
    TextStats(Utf16Be, 5, 0, 0, 0, 7, 5)]

  /** `git_buf`: the bytes, the allocated size (0 for a static literal) and
   *  the size in use. */
  datatype GitBuf = GitBuf(ptr: seq<uint8>, asize: nat, size: nat)

  /** `g_crlf_filtered`. */
  const ExpectedFiltered: seq<GitBuf> := [
    GitBuf([], 0, 0),
    GitBuf(FooLf + BarLf, 0, 8),
    GitBuf(FooCr + BarCr, 0, 8),
    GitBuf(FooLf + BarLf, 0, 8),
    GitBuf(FooLf + BarCr + BothLf + ReversedLfCr + AgainLf + ProblemsCr, 0, 38),
    GitBuf(DigitsLf + BinaryLf, 0, 16),
    GitBuf(Utf8Bom + ThisIsUtf8Lf, 0, 17),
    GitBuf(Utf8Bom + KanaLf + KanaLf, 0, 29),
    GitBuf(Utf16BeBom + This16, 0, 12)]

  /** The counters of two consecutive scans added up; the mark is the one
   *  the first part announces. */
  function Join(x: TextStats, y: TextStats): TextStats
  {
    TextStats(x.bom, x.nul + y.nul, x.cr + y.cr, x.lf + y.lf, x.crlf + y.crlf,
              x.printable + y.printable, x.nonprintable + y.nonprintable)
  }

  /** Scanning and filtering a concatenation whose seam does not split a
   *  CR-LF pair and whose first part decides the mark. */
  lemma Glue(a: seq<uint8>, c: seq<uint8>, x: TextStats, y: TextStats)
    requires Stats(a) == x && Stats(c) == y
    requires BomDecided(a) && Seam(a, c) == 0
    ensures Stats(a + c) == Join(x, y)
    ensures CrlfToLf(a + c) == CrlfToLf(a) + CrlfToLf(c)
    ensures BomDecided(a + c)
  {
    TallyAppend(a, c);
    TallyTotal(a + c);
    DetectBomExtend(a, c);
    CrlfToLfAppend(a, c);
    assert (a + c)[0] == a[0];
  }

  /** `Glue` over three parts. */
  lemma Glue3(a: seq<uint8>, b: seq<uint8>, c: seq<uint8>, x: TextStats, y: TextStats, z: TextStats)
    requires Stats(a) == x && Stats(b) == y && Stats(c) == z
    requires BomDecided(a) && b != [] && Seam(a, b) == 0 && Seam(b, c) == 0
    ensures Stats(a + b + c) == Join(Join(x, y), z)
    ensures CrlfToLf(a + b + c) == CrlfToLf(a) + CrlfToLf(b) + CrlfToLf(c)
    ensures BomDecided(a + b + c)
  {
    Glue(a, b, x, y);
    assert (a + b)[|a + b| - 1] == b[|b| - 1];
    Glue(a + b, c, Join(x, y), z);
  }

  /** `Glue` over four parts. */
  lemma Glue4(a: seq<uint8>, b: seq<uint8>, c: seq<uint8>, d: seq<uint8>,
              x: TextStats, y: TextStats, z: TextStats, w: TextStats)
    requires Stats(a) == x && Stats(b) == y && Stats(c) == z && Stats(d) == w
    requires BomDecided(a) && b != [] && c != []
    requires Seam(a, b) == 0 && Seam(b, c) == 0 && Seam(c, d) == 0
    ensures Stats(a + b + c + d) == Join(Join(Join(x, y), z), w)
    ensures CrlfToLf(a + b + c + d) == CrlfToLf(a) + CrlfToLf(b) + CrlfToLf(c) + CrlfToLf(d)
    ensures BomDecided(a + b + c + d)
  {
    Glue3(a, b, c, x, y, z);
    assert (a + b + c)[|a + b + c| - 1] == c[|c| - 1];
    Glue(a + b + c, d, Join(Join(x, y), z), w);
  }

  /** `Glue` over six parts. */
  lemma Glue6(a: seq<uint8>, b: seq<uint8>, c: seq<uint8>, d: seq<uint8>, e: seq<uint8>, f: seq<uint8>,
              x: TextStats, y: TextStats, z: TextStats, w: TextStats, v: TextStats, u: TextStats)
    requires Stats(a) == x && Stats(b) == y && Stats(c) == z && Stats(d) == w && Stats(e) == v && Stats(f) == u
    requires BomDecided(a) && b != [] && c != [] && d != [] && e != []
    requires Seam(a, b) == 0 && Seam(b, c) == 0 && Seam(c, d) == 0 && Seam(d, e) == 0 && Seam(e, f) == 0
    ensures Stats(a + b + c + d + e + f) == Join(Join(Join(Join(Join(x, y), z), w), v), u)
    ensures CrlfToLf(a + b + c + d + e + f)
         == CrlfToLf(a) + CrlfToLf(b) + CrlfToLf(c) + CrlfToLf(d) + CrlfToLf(e) + CrlfToLf(f)
  {
    Glue4(a, b, c, d, x, y, z, w);
    assert (a + b + c + d)[|a + b + c + d| - 1] == d[|d| - 1];
    Glue(a + b + c + d, e, Join(Join(Join(x, y), z), w), v);
    assert (a + b + c + d + e)[|a + b + c + d + e| - 1] == e[|e| - 1];
    Glue(a + b + c + d + e, f, Join(Join(Join(Join(x, y), z), w), v), u);
  }

  // The scan of each piece, and what the filter makes of it.

  /** A run of printable bytes: every byte counted printable, nothing for
   *  the filter to change. */
  lemma ScanPrintable(b: seq<uint8>)
    requires AllPrintable(b)
    ensures Stats(b) == Zero.(bom := DetectBom(b), printable := |b|)
    ensures CrlfToLf(b) == b
  {
    TallyAllPrintable(b);
    CrlfToLfUnchanged(b);
  }

  lemma ScanFoo()
    ensures Stats(Foo) == TextStats(None, 0, 0, 0, 0, 3, 0)
    ensures CrlfToLf(Foo) == Foo
  {
    ScanPrintable(Foo);
  }

  lemma ScanBar()
    ensures Stats(Bar) == TextStats(None, 0, 0, 0, 0, 3, 0)
    ensures CrlfToLf(Bar) == Bar
  {
    ScanPrintable(Bar);
  }

  lemma ScanBoth()
    ensures Stats(Both) == TextStats(None, 0, 0, 0, 0, 4, 0)
    ensures CrlfToLf(Both) == Both
  {
    ScanPrintable(Both);
  }

  lemma ScanReversed()
    ensures Stats(Reversed) == TextStats(None, 0, 0, 0, 0, 8, 0)
    ensures CrlfToLf(Reversed) == Reversed
  {
    ScanPrintable(Reversed);
  }

  lemma ScanAgain()
    ensures Stats(Again) == TextStats(None, 0, 0, 0, 0, 5, 0)
    ensures CrlfToLf(Again) == Again
  {
    ScanPrintable(Again);
  }

  lemma ScanProblems()
    ensures Stats(Problems) == TextStats(None, 0, 0, 0, 0, 8, 0)
    ensures CrlfToLf(Problems) == Problems
  {
    ScanPrintable(Problems);
  }

  lemma ScanDigits()
    ensures Stats(Digits) == TextStats(None, 0, 0, 0, 0, 3, 0)
    ensures CrlfToLf(Digits) == Digits
  {
    ScanPrintable(Digits);
  }

  lemma ScanAbc()
    ensures Stats(Abc) == TextStats(None, 0, 0, 0, 0, 3, 0)
    ensures CrlfToLf(Abc) == Abc
  {
    ScanPrintable(Abc);
  }

  lemma ScanHighBytes()
    ensures Stats(HighBytes) == TextStats(None, 0, 0, 0, 0, 3, 0)
    ensures CrlfToLf(HighBytes) == HighBytes
  {
    ScanPrintable(HighBytes);
  }

  lemma ScanKana()
    ensures Stats(Kana) == TextStats(None, 0, 0, 0, 0, 6, 0)
    ensures CrlfToLf(Kana) == Kana
  {
    ScanPrintable(Kana);
  }

  lemma ScanThisIsUtf8()
    ensures Stats(ThisIsUtf8) == TextStats(None, 0, 0, 0, 0, 13, 0)
    ensures CrlfToLf(ThisIsUtf8) == ThisIsUtf8
  {
    ScanPrintable(ThisIsUtf8);
  }

  lemma ScanUtf8Bom()
    ensures Stats(Utf8Bom) == TextStats(Utf8, 0, 0, 0, 0, 3, 0)
    ensures CrlfToLf(Utf8Bom) == Utf8Bom
  {
    ScanPrintable(Utf8Bom);
  }

  lemma ScanUtf16BeBom()
    ensures Stats(Utf16BeBom) == TextStats(Utf16Be, 0, 0, 0, 0, 2, 0)
    ensures CrlfToLf(Utf16BeBom) == Utf16BeBom
  {
    ScanPrintable(Utf16BeBom);
  }

  lemma ScanLineEndings()
    ensures Stats(LfOnly) == TextStats(None, 0, 0, 1, 0, 0, 0) && CrlfToLf(LfOnly) == LfOnly
    ensures Stats(CrOnly) == TextStats(None, 0, 1, 0, 0, 0, 0) && CrlfToLf(CrOnly) == CrOnly
    ensures Stats(CrLf) == TextStats(None, 0, 1, 1, 1, 0, 0) && CrlfToLf(CrLf) == LfOnly
    ensures Stats(LfCr) == TextStats(None, 0, 1, 1, 0, 0, 0) && CrlfToLf(LfCr) == LfCr
  {
  }

  lemma ScanControls()
    ensures Stats(Controls) == TextStats(None, 1, 0, 0, 0, 0, 5)
    ensures CrlfToLf(Controls) == Controls
  {
    assert Controls == [NUL] + [0x01, 0x02, 0x03, 0x04];
    TallyCons(NUL, [0x01, 0x02, 0x03, 0x04]);
    CrlfToLfUnchanged(Controls);
  }

  lemma ScanThis16()
    ensures Stats(This16) == TextStats(None, 5, 0, 0, 0, 5, 5)
    ensures CrlfToLf(This16) == This16
  {
    TallyUtf16BeAscii(This16);
    CrlfToLfUnchanged(This16);
  }

  lemma ScanFooLf()
    ensures Stats(FooLf) == TextStats(None, 0, 0, 1, 0, 3, 0)
    ensures CrlfToLf(FooLf) == FooLf
  {
    ScanFoo();
    ScanLineEndings();
    Glue(Foo, LfOnly, TextStats(None, 0, 0, 0, 0, 3, 0), TextStats(None, 0, 0, 1, 0, 0, 0));
  }

  lemma ScanBarLf()
    ensures Stats(BarLf) == TextStats(None, 0, 0, 1, 0, 3, 0)
    ensures CrlfToLf(BarLf) == BarLf
  {
    ScanBar();
    ScanLineEndings();
    Glue(Bar, LfOnly, TextStats(None, 0, 0, 0, 0, 3, 0), TextStats(None, 0, 0, 1, 0, 0, 0));
  }

  lemma ScanFooCr()
    ensures Stats(FooCr) == TextStats(None, 0, 1, 0, 0, 3, 0)
    ensures CrlfToLf(FooCr) == FooCr
  {
    ScanFoo();
    ScanLineEndings();
    Glue(Foo, CrOnly, TextStats(None, 0, 0, 0, 0, 3, 0), TextStats(None, 0, 1, 0, 0, 0, 0));
  }

  lemma ScanBarCr()
    ensures Stats(BarCr) == TextStats(None, 0, 1, 0, 0, 3, 0)
    ensures CrlfToLf(BarCr) == BarCr
  {
    ScanBar();
    ScanLineEndings();
    Glue(Bar, CrOnly, TextStats(None, 0, 0, 0, 0, 3, 0), TextStats(None, 0, 1, 0, 0, 0, 0));
  }

  lemma ScanFooCrLf()
    ensures Stats(FooCrLf) == TextStats(None, 0, 1, 1, 1, 3, 0)
    ensures CrlfToLf(FooCrLf) == FooLf
  {
    ScanFoo();
    ScanLineEndings();
    Glue(Foo, CrLf, TextStats(None, 0, 0, 0, 0, 3, 0), TextStats(None, 0, 1, 1, 1, 0, 0));
  }

  lemma ScanBarCrLf()
    ensures Stats(BarCrLf) == TextStats(None, 0, 1, 1, 1, 3, 0)
    ensures CrlfToLf(BarCrLf) == BarLf
  {
    ScanBar();
    ScanLineEndings();
    Glue(Bar, CrLf, TextStats(None, 0, 0, 0, 0, 3, 0), TextStats(None, 0, 1, 1, 1, 0, 0));
  }

  lemma ScanBothCrLf()
    ensures Stats(BothCrLf) == TextStats(None, 0, 1, 1, 1, 4, 0)
    ensures CrlfToLf(BothCrLf) == BothLf
  {
    ScanBoth();
    ScanLineEndings();
    Glue(Both, CrLf, TextStats(None, 0, 0, 0, 0, 4, 0), TextStats(None, 0, 1, 1, 1, 0, 0));
  }

  lemma ScanReversedLfCr()
    ensures Stats(ReversedLfCr) == TextStats(None, 0, 1, 1, 0, 8, 0)
    ensures CrlfToLf(ReversedLfCr) == ReversedLfCr
  {
    ScanReversed();
    ScanLineEndings();
    Glue(Reversed, LfCr, TextStats(None, 0, 0, 0, 0, 8, 0), TextStats(None, 0, 1, 1, 0, 0, 0));
  }

  lemma ScanAgainLf()
    ensures Stats(AgainLf) == TextStats(None, 0, 0, 1, 0, 5, 0)
    ensures CrlfToLf(AgainLf) == AgainLf
  {
    ScanAgain();
    ScanLineEndings();
    Glue(Again, LfOnly, TextStats(None, 0, 0, 0, 0, 5, 0), TextStats(None, 0, 0, 1, 0, 0, 0));
  }

  lemma ScanProblemsCr()
    ensures Stats(ProblemsCr) == TextStats(None, 0, 1, 0, 0, 8, 0)
    ensures CrlfToLf(ProblemsCr) == ProblemsCr
  {
    ScanProblems();
    ScanLineEndings();
    Glue(Problems, CrOnly, TextStats(None, 0, 0, 0, 0, 8, 0), TextStats(None, 0, 1, 0, 0, 0, 0));
  }

  lemma ScanDigitsLf()
    ensures Stats(DigitsLf) == TextStats(None, 0, 0, 1, 0, 3, 0)
    ensures CrlfToLf(DigitsLf) == DigitsLf
  {
    ScanDigits();
    ScanLineEndings();
    Glue(Digits, LfOnly, TextStats(None, 0, 0, 0, 0, 3, 0), TextStats(None, 0, 0, 1, 0, 0, 0));
  }

  lemma ScanAbcHigh()
    ensures Stats(AbcHigh) == TextStats(None, 0, 0, 0, 0, 6, 0)
    ensures CrlfToLf(AbcHigh) == AbcHigh
  {
    ScanAbc();
    ScanHighBytes();
    Glue(Abc, HighBytes, TextStats(None, 0, 0, 0, 0, 3, 0), TextStats(None, 0, 0, 0, 0, 3, 0));
  }

  lemma ScanThisIsUtf8Lf()
    ensures Stats(ThisIsUtf8Lf) == TextStats(None, 0, 0, 1, 0, 13, 0)
    ensures CrlfToLf(ThisIsUtf8Lf) == ThisIsUtf8Lf
  {
    ScanThisIsUtf8();
    ScanLineEndings();
    Glue(ThisIsUtf8, LfOnly, TextStats(None, 0, 0, 0, 0, 13, 0), TextStats(None, 0, 0, 1, 0, 0, 0));
  }

  lemma ScanBinaryCrLf()
    ensures Stats(BinaryCrLf) == TextStats(None, 1, 1, 1, 1, 6, 5)
    ensures CrlfToLf(BinaryCrLf) == BinaryLf
  {
    ScanControls();
    ScanAbcHigh();
    ScanLineEndings();
    Glue3(Controls, AbcHigh, CrLf,
      TextStats(None, 1, 0, 0, 0, 0, 5), TextStats(None, 0, 0, 0, 0, 6, 0), TextStats(None, 0, 1, 1, 1, 0, 0));
  }

  lemma ScanKanaCrLf()
    ensures Stats(KanaCrLf) == TextStats(None, 0, 1, 1, 1, 12, 0)
    ensures CrlfToLf(KanaCrLf) == KanaLf
  {
    ScanKana();
    ScanLineEndings();
    Glue3(Kana, Kana, CrLf,
      TextStats(None, 0, 0, 0, 0, 6, 0), TextStats(None, 0, 0, 0, 0, 6, 0), TextStats(None, 0, 1, 1, 1, 0, 0));
  }

  /** The empty fixture. */
  lemma Vector0()
    ensures Stats(Raw0) == ExpectedStats[0]
    ensures CrlfToLf(Raw0) == ExpectedFiltered[0].ptr
    ensures |ExpectedFiltered[0].ptr| == ExpectedFiltered[0].size
  {
  }

  /** Two LF-terminated lines: nothing to collapse. */
  lemma Vector1()
    ensures Stats(Raw1) == ExpectedStats[1]
    ensures CrlfToLf(Raw1) == ExpectedFiltered[1].ptr
    ensures |ExpectedFiltered[1].ptr| == ExpectedFiltered[1].size
  {
    ScanFooLf();
    ScanBarLf();
    Glue(FooLf, BarLf,
      TextStats(None, 0, 0, 1, 0, 3, 0), TextStats(None, 0, 0, 1, 0, 3, 0));
  }

  /** Two CR-terminated lines: lone CRs are counted and kept. */
  lemma Vector2()
    ensures Stats(Raw2) == ExpectedStats[2]
    ensures CrlfToLf(Raw2) == ExpectedFiltered[2].ptr
    ensures |ExpectedFiltered[2].ptr| == ExpectedFiltered[2].size
  {
    ScanFooCr();
    ScanBarCr();
    Glue(FooCr, BarCr,
      TextStats(None, 0, 1, 0, 0, 3, 0), TextStats(None, 0, 1, 0, 0, 3, 0));
  }

  /** Two CR-LF-terminated lines: both pairs collapse. */
  lemma Vector3()
    ensures Stats(Raw3) == ExpectedStats[3]
    ensures CrlfToLf(Raw3) == ExpectedFiltered[3].ptr
    ensures |ExpectedFiltered[3].ptr| == ExpectedFiltered[3].size
  {
    ScanFooCrLf();
    ScanBarCrLf();
    Glue(FooCrLf, BarCrLf,
      TextStats(None, 0, 1, 1, 1, 3, 0), TextStats(None, 0, 1, 1, 1, 3, 0));
  }

  /** Every kind of line ending: only the one CR-LF pair collapses, LF CR is kept. */
  lemma Vector4()
    ensures Stats(Raw4) == ExpectedStats[4]
    ensures CrlfToLf(Raw4) == ExpectedFiltered[4].ptr
    ensures |ExpectedFiltered[4].ptr| == ExpectedFiltered[4].size
  {
    ScanFooLf();
    ScanBarCr();
    ScanBothCrLf();
    ScanReversedLfCr();
    ScanAgainLf();
    ScanProblemsCr();
    Glue6(FooLf, BarCr, BothCrLf, ReversedLfCr, AgainLf, ProblemsCr,
      TextStats(None, 0, 0, 1, 0, 3, 0), TextStats(None, 0, 1, 0, 0, 3, 0), TextStats(None, 0, 1, 1, 1, 4, 0),
      TextStats(None, 0, 1, 1, 0, 8, 0), TextStats(None, 0, 0, 1, 0, 5, 0), TextStats(None, 0, 1, 0, 0, 8, 0));
  }

  /** Binary-looking content (a NUL, control and high bytes) is filtered all the same. */
  lemma Vector5()
    ensures Stats(Raw5) == ExpectedStats[5]
    ensures CrlfToLf(Raw5) == ExpectedFiltered[5].ptr
    ensures |ExpectedFiltered[5].ptr| == ExpectedFiltered[5].size
  {
    ScanDigitsLf();
    ScanBinaryCrLf();
    Glue(DigitsLf, BinaryCrLf, TextStats(None, 0, 0, 1, 0, 3, 0), TextStats(None, 1, 1, 1, 1, 6, 5));
  }

  /** A UTF-8 mark, counted as three printable bytes. */
  lemma Vector6()
    ensures Stats(Raw6) == ExpectedStats[6]
    ensures CrlfToLf(Raw6) == ExpectedFiltered[6].ptr
    ensures |ExpectedFiltered[6].ptr| == ExpectedFiltered[6].size
  {
    ScanUtf8Bom();
    ScanThisIsUtf8Lf();
    Glue(Utf8Bom, ThisIsUtf8Lf, TextStats(Utf8, 0, 0, 0, 0, 3, 0), TextStats(None, 0, 0, 1, 0, 13, 0));
  }

  /** UTF-8 text after a mark: both pairs collapse. */
  lemma Vector7()
    ensures Stats(Raw7) == ExpectedStats[7]
    ensures CrlfToLf(Raw7) == ExpectedFiltered[7].ptr
    ensures |ExpectedFiltered[7].ptr| == ExpectedFiltered[7].size
  {
    ScanUtf8Bom();
    ScanKanaCrLf();
    Glue3(Utf8Bom, KanaCrLf, KanaCrLf,
      TextStats(Utf8, 0, 0, 0, 0, 3, 0), TextStats(None, 0, 1, 1, 1, 12, 0), TextStats(None, 0, 1, 1, 1, 12, 0));
  }

  /** UTF-16-BE text after its mark: every NUL is counted, nothing is filtered. */
  lemma Vector8()
    ensures Stats(Raw8) == ExpectedStats[8]
    ensures CrlfToLf(Raw8) == ExpectedFiltered[8].ptr
    ensures |ExpectedFiltered[8].ptr| == ExpectedFiltered[8].size
  {
    ScanUtf16BeBom();
    ScanThis16();
    Glue(Utf16BeBom, This16, TextStats(Utf16Be, 0, 0, 0, 0, 2, 0), TextStats(None, 5, 0, 0, 0, 5, 5));
  }

  /** Every fixture, by index: its statistics, its filtered bytes, and the
   *  size the expected buffer declares. */
  lemma Fixture(i: nat)
    requires i < |Raw|
    ensures Stats(Raw[i]) == ExpectedStats[i]
    ensures CrlfToLf(Raw[i]) == ExpectedFiltered[i].ptr
    ensures |ExpectedFiltered[i].ptr| == ExpectedFiltered[i].size
  {
    if i == 0 { Vector0(); }
    else if i == 1 { Vector1(); }
    else if i == 2 { Vector2(); }
    else if i == 3 { Vector3(); }
    else if i == 4 { Vector4(); }
    else if i == 5 { Vector5(); }
    else if i == 6 { Vector6(); }
    else if i == 7 { Vector7(); }
    else { Vector8(); }
  }
}
