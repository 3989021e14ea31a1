/** The test loops of libgit2's blob filter test: the initialisation loop
 *  that settles each fixture's length and stores the fixture as a blob, the
 *  statistics test and the "to ODB" filter test. The object database is a
 *  store that gives back the bytes it was given, so a blob is modelled by
 *  its content. */
module BlobFilterTest {
  import opened BufText
  import opened CrlfFilter
  import opened BlobFilterFixtures

  /** `strlen` of a C string literal holding `s` and then its terminating
   *  NUL: the number of bytes before the first NUL, which is all of them when
   *  the scanner counts no NUL. */
  function Strlen(s: seq<uint8>): (n: nat)
    ensures n <= |s|
    ensures forall i :: 0 <= i < n ==> s[i] != NUL
    ensures n < |s| ==> s[n] == NUL
    ensures Tally(s).nul == 0 ==> n == |s|
  {
    if s == [] || s[0] == NUL then 0 else 1 + Strlen(s[1..])
  }

  /** The length the initialisation loop settles on: the declared one, or
   *  `strlen` of the literal when the declared one is negative. A negative
   *  declaration measures the literal up to its first NUL, and so in full
   *  when it holds none. */
  function ResolvedLength(declared: int, raw: seq<uint8>): (n: nat)
    ensures declared >= 0 ==> n == declared
    ensures declared < 0 ==> n <= |raw| && forall i :: 0 <= i < n ==> raw[i] != NUL
    ensures declared < 0 && n < |raw| ==> raw[n] == NUL
    ensures declared < 0 && Tally(raw).nul == 0 ==> n == |raw|
  {
    if declared < 0 then Strlen(raw) else declared
  }

  /** `strlen` stops at the embedded NUL of fixtures 5 and 8: without their
   *  explicit lengths the blobs would hold only 4 and 2 bytes. */
  lemma StrlenTruncates()
    ensures Strlen(Raw5) == 4 && |Raw5| == 17
    ensures Strlen(Raw8) == 2 && |Raw8| == 12
  {
    assert Raw5[4] == NUL;
    assert Raw5[0] != NUL && Raw5[1] != NUL && Raw5[2] != NUL && Raw5[3] != NUL;
    assert Raw8[2] == NUL;
    assert Raw8[0] != NUL && Raw8[1] != NUL;
  }

  /** Every resolved length is the full length of its fixture. */
  lemma LengthsResolve()
    ensures forall i :: 0 <= i < |Raw| ==> ResolvedLength(DeclaredLengths[i], Raw[i]) == |Raw[i]|
  {
    forall i | 0 <= i < |Raw|
      ensures ResolvedLength(DeclaredLengths[i], Raw[i]) == |Raw[i]|
    {
      if DeclaredLengths[i] < 0 {
        Fixture(i);
      }
    }
  }

  /** No fixture declares more bytes than its literal holds. */
  lemma DeclaredFit()
    ensures |DeclaredLengths| == |Raw|
    ensures forall i :: 0 <= i < |Raw| ==> DeclaredLengths[i] <= |Raw[i]|
  {
    StrlenTruncates();
  }

  /** `test_object_blob_filter__initialize`: settles the length of every
   *  fixture in place in `lens` and stores that many bytes of the literal as
   *  a blob. */
  method Initialize(raw: seq<seq<uint8>>, lens: array<int>) returns (blobs: seq<seq<uint8>>)
    requires lens.Length == |raw|
    requires forall i :: 0 <= i < |raw| ==> lens[i] <= |raw[i]|
    modifies lens
    ensures |blobs| == |raw|
    ensures forall i :: 0 <= i < |raw| ==> lens[i] == ResolvedLength(old(lens[i]), raw[i])
    ensures forall i :: 0 <= i < |raw| ==> 0 <= lens[i] <= |raw[i]| && blobs[i] == raw[i][..lens[i]]
  {
    blobs := [];
    for i := 0 to |raw|
      invariant |blobs| == i
      invariant forall j :: 0 <= j < i ==> lens[j] == ResolvedLength(old(lens[j]), raw[j])
      invariant forall j :: i <= j < |raw| ==> lens[j] == old(lens[j])
      invariant forall j :: 0 <= j < i ==> 0 <= lens[j] <= |raw[j]| && blobs[j] == raw[j][..lens[j]]
    {
      var len := if lens[i] < 0 then Strlen(raw[i]) else lens[i];
      lens[i] := len;
      blobs := blobs + [raw[i][..len]];
    }
  }

  /** `test_object_blob_filter__unfiltered`: every stored blob has the
   *  settled length and holds that many bytes of its literal. */
  method UnfilteredTest(blobs: seq<seq<uint8>>, raw: seq<seq<uint8>>, lens: seq<int>) returns (pass: bool)
    requires |blobs| == |raw| == |lens|
    requires forall i :: 0 <= i < |raw| ==> 0 <= lens[i] <= |raw[i]|
    ensures pass <==> forall i :: 0 <= i < |blobs| ==> |blobs[i]| == lens[i] && blobs[i] == raw[i][..lens[i]]
  {
    for i := 0 to |blobs|
      invariant forall j :: 0 <= j < i ==> |blobs[j]| == lens[j] && blobs[j] == raw[j][..lens[j]]
    {
      if |blobs[i]| != lens[i] {
        return false;
      }
      if blobs[i] != raw[i][..lens[i]] {
        return false;
      }
    }
    return true;
  }

  /** `test_object_blob_filter__stats`: scans every blob and stops at the
   *  first one whose statistics differ from the expected ones. */
  method StatsTest(blobs: seq<seq<uint8>>, expected: seq<TextStats>) returns (pass: bool)
    requires |blobs| == |expected|
    ensures pass <==> forall i :: 0 <= i < |blobs| ==> Stats(blobs[i]) == expected[i]
  {
    for i := 0 to |blobs|
      invariant forall j :: 0 <= j < i ==> Stats(blobs[j]) == expected[j]
    {
      var stats := GatherStats(blobs[i]);
      if stats != expected[i] {
        return false;
      }
    }
    return true;
  }

  function Min(a: nat, b: nat): nat
  {
    if a < b then a else b
  }

  /** The comparison `test_object_blob_filter__to_odb` makes: only the first
   *  `min(out.size, expected.size)` bytes are compared. */
  predicate PrefixAgrees(out: seq<uint8>, e: GitBuf)
  {
    var n := Min(|out|, e.size);
    n <= |e.ptr| && out[..n] == e.ptr[..n]
  }

  /** The comparison the test evidently means: the output is the expected
   *  buffer, size and bytes. */
  predicate Agrees(out: seq<uint8>, e: GitBuf)
  {
    e.size <= |e.ptr| && out == e.ptr[..e.size]
  }

  /** The exact comparison is the prefix comparison plus equal sizes. */
  lemma AgreesIsPrefixAndSize(out: seq<uint8>, e: GitBuf)
    ensures Agrees(out, e) <==> PrefixAgrees(out, e) && |out| == e.size
  {
    if PrefixAgrees(out, e) && |out| == e.size {
      assert out[..|out|] == out;
    }
  }

  /** Every prefix of the right output passes the test's comparison, the
   *  empty output included. */
  lemma PrefixAcceptsTruncated(out: seq<uint8>, e: GitBuf, k: nat)
    requires Agrees(out, e) && k <= |out|
    ensures PrefixAgrees(out[..k], e)
  {
    assert out[..k][..k] == e.ptr[..e.size][..k];
  }

  /** A concrete wrong output that passes: "foo\n" where fixture 1 expects
   *  "foo\nbar\n". */
  lemma TruncatedFooPasses()
    ensures PrefixAgrees(FooLf, ExpectedFiltered[1])
    ensures !Agrees(FooLf, ExpectedFiltered[1])
  {
    Fixture(1);
    assert (FooLf + BarLf)[..4] == FooLf;
  }

  /** `test_object_blob_filter__to_odb` as written: filters every blob with
   *  the CRLF filter of a `text` path and stops at the first one whose
   *  output fails the prefix comparison. */
  method ToOdbTest(blobs: seq<seq<uint8>>, expected: seq<GitBuf>) returns (pass: bool)
    requires |blobs| == |expected|
    ensures pass <==> forall i :: 0 <= i < |blobs| ==> PrefixAgrees(CrlfToLf(blobs[i]), expected[i])
  {
    for i := 0 to |blobs|
      invariant forall j :: 0 <= j < i ==> PrefixAgrees(CrlfToLf(blobs[j]), expected[j])
    {
      var out := ApplyToOdb(blobs[i]);
      if !PrefixAgrees(out, expected[i]) {
        return false;
      }
    }
    return true;
  }

  /** The same test with the exact comparison. */
  method ToOdbTestExact(blobs: seq<seq<uint8>>, expected: seq<GitBuf>) returns (pass: bool)
    requires |blobs| == |expected|
    ensures pass <==> forall i :: 0 <= i < |blobs| ==> Agrees(CrlfToLf(blobs[i]), expected[i])
  {
    for i := 0 to |blobs|
      invariant forall j :: 0 <= j < i ==> Agrees(CrlfToLf(blobs[j]), expected[j])
    {
      var out := ApplyToOdb(blobs[i]);
      if !Agrees(out, expected[i]) {
        return false;
      }
    }
    return true;
  }

  /** Every fixture's statistics are the expected ones, and its filtered
   *  bytes pass both the exact comparison and the test's prefix one. */
  lemma FixturesAgree()
    ensures forall i :: 0 <= i < |Raw| ==> Stats(Raw[i]) == ExpectedStats[i]
    ensures forall i :: 0 <= i < |Raw| ==> Agrees(CrlfToLf(Raw[i]), ExpectedFiltered[i])
    ensures forall i :: 0 <= i < |Raw| ==> PrefixAgrees(CrlfToLf(Raw[i]), ExpectedFiltered[i])
  {
    forall i | 0 <= i < |Raw|
      ensures Stats(Raw[i]) == ExpectedStats[i]
      ensures Agrees(CrlfToLf(Raw[i]), ExpectedFiltered[i])
      ensures PrefixAgrees(CrlfToLf(Raw[i]), ExpectedFiltered[i])
    {
      Fixture(i);
      assert ExpectedFiltered[i].ptr[..ExpectedFiltered[i].size] == ExpectedFiltered[i].ptr;
      AgreesIsPrefixAndSize(CrlfToLf(Raw[i]), ExpectedFiltered[i]);
    }
  }

  /** The whole suite: initialisation, then the three tests, each passing;
   *  the filter test passes under the exact comparison as well. */
  method FilterSuite() returns (rawPass: bool, statsPass: bool, odbPass: bool, exactPass: bool)
    ensures rawPass && statsPass && odbPass && exactPass
  {
    var lens := new int[|DeclaredLengths|](i requires 0 <= i < |DeclaredLengths| => DeclaredLengths[i]);
    DeclaredFit();
    var blobs := Initialize(Raw, lens);
    LengthsResolve();
    assert blobs == Raw by {
      forall i | 0 <= i < |Raw|
        ensures blobs[i] == Raw[i]
      {
        assert lens[i] == |Raw[i]|;
      }
    }
    FixturesAgree();
    rawPass := UnfilteredTest(blobs, Raw, lens[..]);
    statsPass := StatsTest(blobs, ExpectedStats);
    odbPass := ToOdbTest(blobs, ExpectedFiltered);
    exactPass := ToOdbTestExact(blobs, ExpectedFiltered);
  }
}
