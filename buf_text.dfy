/** Text statistics of a byte buffer for libgit2's `git_buf_text_gather_stats`,
 *  as the blob filter test's fixtures fix them: one forward pass that tallies
 *  NUL, CR, LF, CR-LF pairs, printable and non-printable bytes, preceded by a
 *  byte-order-mark sniff of the buffer's leading bytes. */
module BufText {

  newtype uint8 = x: int | 0 <= x < 256

  const NUL: uint8 := 0x00
  const LF: uint8 := 0x0A
  const CR: uint8 := 0x0D

  /** `git_bom_t`; the fixtures write `GIT_BOM_NONE` as 0. */
  datatype Bom = None | Utf8 | Utf16Le | Utf16Be | Utf32Le | Utf32Be

  /** `git_buf_text_stats`, fields in declaration order: bom, nul, cr, lf,
   *  crlf, printable, nonprintable. */
  datatype TextStats = TextStats(
    bom: Bom,
    nul: nat,
    cr: nat,
    lf: nat,
    crlf: nat,
    printable: nat,
    nonprintable: nat)

  const Zero := TextStats(None, 0, 0, 0, 0, 0, 0)

  /** The class of one byte as the scanner sees it. */
  datatype ByteClass = Printable | Nul | Lf | Cr | NonPrintable

  function Classify(c: uint8): ByteClass
  {
    if 0x20 <= c && c != 0x7F then Printable  // 0x20-0x7E and every byte >= 0x80
    else if c == NUL then Nul
    else if c == LF then Lf
    else if c == CR then Cr
    else NonPrintable
  }

  /** 1 for a condition that holds, 0 otherwise. */
  function Ind(p: bool): nat
  {
    if p then 1 else 0
  }

  /** The counters of one scan, front to back, each byte adding to the
   *  counters of its class; a CR also adds to `crlf` when the very next byte
   *  is an LF. The `bom` field is left `None`. */
  function Tally(b: seq<uint8>): TextStats
  {
    if b == [] then Zero
    else
      var t, k := Tally(b[1..]), Classify(b[0]);
      TextStats(None,
        t.nul + Ind(k == Nul),
        t.cr + Ind(k == Cr),
        t.lf + Ind(k == Lf),
        t.crlf + Ind(k == Cr && |b| > 1 && b[1] == LF),
        t.printable + Ind(k == Printable),
        t.nonprintable + Ind(k == Nul || k == NonPrintable))
  }

  /** The byte-order mark the leading bytes of `b` announce. */
  function DetectBom(b: seq<uint8>): Bom
  {
    if |b| < 2 then None
    else if |b| >= 4 && b[0] == 0x00 && b[1] == 0x00 && b[2] == 0xFE && b[3] == 0xFF then Utf32Be
    else if |b| >= 3 && b[0] == 0xEF && b[1] == 0xBB && b[2] == 0xBF then Utf8
    else if b[0] == 0xFE && b[1] == 0xFF then Utf16Be
    else if b[0] == 0xFF && b[1] == 0xFE then
      (if |b| >= 4 && b[2] == 0x00 && b[3] == 0x00 then Utf32Le else Utf16Le)
    else None
  }

  /** The bytes that announce each byte-order mark. */
  function Signature(bom: Bom): seq<uint8>
  {
    match bom
    case None => []
    case Utf8 => [0xEF, 0xBB, 0xBF]
    case Utf16Be => [0xFE, 0xFF]
    case Utf16Le => [0xFF, 0xFE]
    case Utf32Be => [0x00, 0x00, 0xFE, 0xFF]
    case Utf32Le => [0xFF, 0xFE, 0x00, 0x00]
  }

  /** The statistics of the whole buffer, BOM bytes included in the counts
   *  (the `skip_bom` argument is `false`). */
  function Stats(b: seq<uint8>): TextStats
  {
    Tally(b).(bom := DetectBom(b))
  }

  /** The scanning loop: counters updated byte by byte, peeking one byte
   *  ahead at each CR. */
  method GatherStats(buf: seq<uint8>) returns (stats: TextStats)
    ensures stats == Stats(buf)
  {
    var acc := Zero;
    var i := 0;
    while i < |buf|
      invariant 0 <= i <= |buf|
      invariant acc.bom == None
      invariant acc.nul + Tally(buf[i..]).nul == Tally(buf).nul
      invariant acc.cr + Tally(buf[i..]).cr == Tally(buf).cr
      invariant acc.lf + Tally(buf[i..]).lf == Tally(buf).lf
      invariant acc.crlf + Tally(buf[i..]).crlf == Tally(buf).crlf
      invariant acc.printable + Tally(buf[i..]).printable == Tally(buf).printable
      invariant acc.nonprintable + Tally(buf[i..]).nonprintable == Tally(buf).nonprintable
    {
      assert buf[i..][1..] == buf[i + 1..];
      var c := buf[i];
      if 0x20 <= c && c != 0x7F {
        acc := acc.(printable := acc.printable + 1);
      } else if c == NUL {
        acc := acc.(nul := acc.nul + 1, nonprintable := acc.nonprintable + 1);
      } else if c == LF {
        acc := acc.(lf := acc.lf + 1);
      } else if c == CR {
        acc := acc.(cr := acc.cr + 1);
        if i + 1 < |buf| && buf[i + 1] == LF {
          acc := acc.(crlf := acc.crlf + 1);
        }
      } else {
        acc := acc.(nonprintable := acc.nonprintable + 1);
      }
      i := i + 1;
    }
    assert buf[i..] == [];
    stats := acc.(bom := DetectBom(buf));
  }

  /** The empty buffer has all-zero statistics and no byte-order mark. */
  lemma StatsEmpty()
    ensures Stats([]) == TextStats(None, 0, 0, 0, 0, 0, 0)
  {
  }

  /** Every byte lands in exactly one of printable, nonprintable, cr and lf;
   *  NULs are a subset of the nonprintable bytes and each CR-LF pair is also
   *  counted in cr and in lf. */
  lemma {:induction false} TallyTotal(b: seq<uint8>)
    ensures Tally(b).bom == None
    ensures Tally(b).nonprintable + Tally(b).printable + Tally(b).cr + Tally(b).lf == |b|
    ensures Tally(b).nul <= Tally(b).nonprintable
    ensures Tally(b).crlf <= Tally(b).cr
    ensures Tally(b).crlf + (if b != [] && b[0] == LF then 1 else 0) <= Tally(b).lf
  {
    if b != [] {
      TallyTotal(b[1..]);
    }
  }

  /** The per-byte classes of a buffer, position by position. */
  function Classes(b: seq<uint8>): seq<ByteClass>
  {
    seq(|b|, i requires 0 <= i < |b| => Classify(b[i]))
  }

  /** The adjacent byte pairs of a buffer, position by position. */
  function Pairs(b: seq<uint8>): seq<(uint8, uint8)>
  {
    if |b| < 2 then [] else seq(|b| - 1, i requires 0 <= i < |b| - 1 => (b[i], b[i + 1]))
  }

  /** The single pass counts NUL, CR and LF bytes as counting each of them
   *  over the whole buffer does. */
  lemma {:induction false} TallyCountsBytes(b: seq<uint8>)
    ensures Tally(b).nul == multiset(b)[NUL]
    ensures Tally(b).cr == multiset(b)[CR]
    ensures Tally(b).lf == multiset(b)[LF]
  {
    if b != [] {
      TallyCountsBytes(b[1..]);
      assert b == [b[0]] + b[1..];
      assert multiset(b) == multiset{b[0]} + multiset(b[1..]);
    }
  }

  /** The single pass counts printable and non-printable bytes as counting
   *  the classes of all positions does. */
  lemma {:induction false} TallyCountsClasses(b: seq<uint8>)
    ensures Tally(b).printable == multiset(Classes(b))[Printable]
    ensures Tally(b).nonprintable == multiset(Classes(b))[NonPrintable] + multiset(Classes(b))[Nul]
  {
    if b != [] {
      TallyCountsClasses(b[1..]);
      assert Classes(b) == [Classify(b[0])] + Classes(b[1..]);
      assert multiset(Classes(b)) == multiset{Classify(b[0])} + multiset(Classes(b[1..]));
    }
  }

  lemma PairsCons(b: seq<uint8>)
    requires |b| >= 2
    ensures Pairs(b) == [(b[0], b[1])] + Pairs(b[1..])
  {
  }

  /** The single pass counts exactly the adjacent CR-LF pairs. */
  lemma {:induction false} TallyCountsPairs(b: seq<uint8>)
    ensures Tally(b).crlf == multiset(Pairs(b))[(CR, LF)]
  {
    if |b| >= 2 {
      TallyCountsPairs(b[1..]);
      PairsCons(b);
      assert multiset(Pairs(b)) == multiset{(b[0], b[1])} + multiset(Pairs(b[1..]));
    } else if b != [] {
      assert b[1..] == [];
    }
  }

  /** 1 when a CR ends `a` and an LF starts `c`: the one pair a split hides. */
  function Seam(a: seq<uint8>, c: seq<uint8>): nat
  {
    if a != [] && c != [] && a[|a| - 1] == CR && c[0] == LF then 1 else 0
  }

  /** Scanning a concatenation adds up the scans of its parts, plus the CR-LF
   *  pair that may straddle the seam. */
  lemma {:induction false} TallyAppend(a: seq<uint8>, c: seq<uint8>)
    ensures Tally(a + c).nul == Tally(a).nul + Tally(c).nul
    ensures Tally(a + c).cr == Tally(a).cr + Tally(c).cr
    ensures Tally(a + c).lf == Tally(a).lf + Tally(c).lf
    ensures Tally(a + c).crlf == Tally(a).crlf + Tally(c).crlf + Seam(a, c)
    ensures Tally(a + c).printable == Tally(a).printable + Tally(c).printable
    ensures Tally(a + c).nonprintable == Tally(a).nonprintable + Tally(c).nonprintable
  {
    if a == [] {
      assert a + c == c;
    } else {
      var t := a[1..];
      assert (a + c)[1..] == t + c;
      assert (a + c)[0] == a[0];
      TallyAppend(t, c);
      if |a| == 1 {
        assert t + c == c;
      } else {
        assert (a + c)[1] == a[1];
        assert t[|t| - 1] == a[|a| - 1];
      }
    }
  }

  /** The one-byte counters of a byte put in front of a buffer. */
  lemma TallyCons(x: uint8, s: seq<uint8>)
    ensures Tally([x] + s).nul == Tally(s).nul + Ind(x == NUL)
    ensures Tally([x] + s).cr == Tally(s).cr + Ind(x == CR)
    ensures Tally([x] + s).lf == Tally(s).lf + Ind(x == LF)
    ensures Tally([x] + s).crlf == Tally(s).crlf + Ind(x == CR && s != [] && s[0] == LF)
    ensures Tally([x] + s).printable == Tally(s).printable + Ind(Classify(x) == Printable)
    ensures Tally([x] + s).nonprintable == Tally(s).nonprintable + Ind(Classify(x) == Nul || Classify(x) == NonPrintable)
  {
    TallyAppend([x], s);
  }

  /** Buffers every byte of which is printable: plain ASCII text, and
   *  bytes from 0x80 such as UTF-8 sequences. */
  predicate AllPrintable(b: seq<uint8>)
  {
    forall i :: 0 <= i < |b| ==> Classify(b[i]) == Printable
  }

  /** A buffer of printable bytes counts only printable bytes. */
  lemma {:induction false} TallyAllPrintable(b: seq<uint8>)
    requires AllPrintable(b)
    ensures Tally(b) == Zero.(printable := |b|)
  {
    if b != [] {
      assert forall i :: 0 <= i < |b[1..]| ==> b[1..][i] == b[i + 1];
      TallyAllPrintable(b[1..]);
    }
  }

  /** ASCII text in UTF-16 big-endian: a NUL before each printable byte. */
  predicate Utf16BeAscii(b: seq<uint8>)
  {
    |b| % 2 == 0 &&
    forall i :: 0 <= i < |b| ==> if i % 2 == 0 then b[i] == NUL else Classify(b[i]) == Printable
  }

  /** In UTF-16-BE ASCII text half the bytes are NULs, counted both as NUL
   *  and as non-printable, and the other half are printable. */
  lemma {:induction false} TallyUtf16BeAscii(b: seq<uint8>)
    requires Utf16BeAscii(b)
    ensures Tally(b) == Zero.(nul := |b| / 2, printable := |b| / 2, nonprintable := |b| / 2)
  {
    if b != [] {
      var t := b[2..];
      forall i | 0 <= i < |t|
        ensures if i % 2 == 0 then t[i] == NUL else Classify(t[i]) == Printable
      {
        assert t[i] == b[i + 2] && (i + 2) % 2 == i % 2;
      }
      TallyUtf16BeAscii(t);
      assert b[0] == NUL && Classify(b[1]) == Printable;
      assert b[1..] == [b[1]] + t;
      assert b == [b[0]] + b[1..];
      TallyCons(b[1], t);
      TallyCons(b[0], b[1..]);
    }
  }

  /** The leading bytes of a buffer match the signature of the mark reported. */
  lemma DetectBomSound(b: seq<uint8>)
    ensures |Signature(DetectBom(b))| <= |b|
    ensures b[..|Signature(DetectBom(b))|] == Signature(DetectBom(b))
  {
  }

  /** A buffer reports a UTF-8 mark exactly when it starts with EF BB BF. */
  lemma DetectUtf8(b: seq<uint8>)
    ensures DetectBom(b) == Utf8 <==> |b| >= 3 && b[..3] == [0xEF, 0xBB, 0xBF]
  {
    if |b| >= 3 && b[..3] == [0xEF, 0xBB, 0xBF] {
      assert b[0] == 0xEF && b[1] == 0xBB && b[2] == 0xBF;
    }
  }

  /** A buffer reports a UTF-16 big-endian mark exactly when it starts with
   *  FE FF. */
  lemma DetectUtf16Be(b: seq<uint8>)
    ensures DetectBom(b) == Utf16Be <==> |b| >= 2 && b[..2] == [0xFE, 0xFF]
  {
    if |b| >= 2 && b[..2] == [0xFE, 0xFF] {
      assert b[0] == 0xFE && b[1] == 0xFF;
    }
  }

  /** Buffers whose leading bytes already decide the mark: four bytes, or
   *  two or three bytes that cannot be the start of a longer mark. */
  predicate BomDecided(a: seq<uint8>)
  {
    |a| >= 4 || (|a| >= 2 && a[0] != 0x00 && a[0] != 0xFF && (|a| >= 3 || a[0] != 0xEF))
  }

  /** Appending bytes after a prefix that decides the mark keeps the mark. */
  lemma DetectBomExtend(a: seq<uint8>, c: seq<uint8>)
    requires BomDecided(a)
    ensures DetectBom(a + c) == DetectBom(a)
  {
    var b := a + c;
    assert b[0] == a[0] && b[1] == a[1];
    if |a| >= 4 {
      assert b[2] == a[2] && b[3] == a[3];
    } else if |a| == 3 {
      assert b[2] == a[2];
    }
  }

  /** The bytes of a UTF-8 or UTF-16-BE mark are reported in `bom` and are
   *  also counted as printable bytes; the rest of the counts are those of
   *  the text after the mark. */
  lemma BomCountedAsPrintable(b: seq<uint8>)
    requires DetectBom(b) == Utf8 || DetectBom(b) == Utf16Be
    ensures var rest := Tally(b[|Signature(DetectBom(b))|..]);
      Stats(b) == rest.(bom := DetectBom(b), printable := rest.printable + |Signature(DetectBom(b))|)
  {
    var mark := Signature(DetectBom(b));
    DetectBomSound(b);
    assert b == mark + b[|mark|..];
    SignatureTally(DetectBom(b));
    TallyAppend(mark, b[|mark|..]);
  }

  /** The bytes of a UTF-8 or UTF-16-BE mark, scanned on their own, are all
   *  printable. */
  lemma SignatureTally(bom: Bom)
    requires bom == Utf8 || bom == Utf16Be
    ensures Tally(Signature(bom)) == Zero.(printable := |Signature(bom)|)
    ensures Signature(bom)[|Signature(bom)| - 1] != CR
  {
    if bom == Utf8 {
      assert Tally([0xEF, 0xBB, 0xBF]) == Zero.(printable := 3);
    } else {
      assert Tally([0xFE, 0xFF]) == Zero.(printable := 2);
    }
  }

}
