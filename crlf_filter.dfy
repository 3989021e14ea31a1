/** The "to ODB" direction of libgit2's CRLF filter, for a path whose
 *  attributes declare it `text`: every CR immediately followed by LF is
 *  dropped, and every other byte (a lone CR, a lone LF, NUL, control and
 *  high-bit bytes) is copied. The rewrite does not consult the statistics, so
 *  it applies to binary-looking content and to UTF-16 content alike. */
module CrlfFilter {
  import opened BufText

  /** The normalised content, defined front to back. */
  function CrlfToLf(b: seq<uint8>): seq<uint8>
  {
    if b == [] then []
    else if |b| >= 2 && b[0] == CR && b[1] == LF then [LF] + CrlfToLf(b[2..])
    else [b[0]] + CrlfToLf(b[1..])
  }

  /** The streaming rewrite: one pass with a one-byte "pending CR" state. A CR
   *  is held back until the next byte shows whether it starts a CR-LF pair; a
   *  CR still pending at the end of the input is emitted. */
  method ApplyToOdb(input: seq<uint8>) returns (output: seq<uint8>)
    ensures output == CrlfToLf(input)
  {
    output := [];
    var pendingCr := false;
    var i := 0;
    while i < |input|
      invariant 0 <= i <= |input|
      invariant pendingCr <==> 0 < i && input[i - 1] == CR
      invariant pendingCr ==> output == CrlfToLf(input[..i - 1])
      invariant !pendingCr ==> output == CrlfToLf(input[..i])
    {
      var c := input[i];
      if pendingCr {
        ghost var done := input[..i - 1];
        if c == LF {
          assert input[..i + 1] == done + [CR, LF];
          CrlfToLfAppend(done, [CR, LF]);
          Pair([]);
          output := output + [LF];
          pendingCr := false;
        } else if c == CR {
          assert input[..i] == done + [CR];
          CrlfToLfAppend(done, [CR]);
          Lone([], CR);
          output := output + [CR];
        } else {
          assert input[..i + 1] == done + [CR, c];
          CrlfToLfAppend(done, [CR, c]);
          Lone([c], CR);
          Lone([], c);
          output := output + [CR, c];
          pendingCr := false;
        }
      } else if c == CR {
        assert input[..i + 1][..i] == input[..i];
        pendingCr := true;
      } else {
        assert input[..i + 1] == input[..i] + [c];
        CrlfToLfAppend(input[..i], [c]);
        Lone([], c);
        output := output + [c];
      }
      i := i + 1;
    }
    assert input[..i] == input;
    if pendingCr {
      assert input == input[..i - 1] + [CR];
      CrlfToLfAppend(input[..i - 1], [CR]);
      Lone([], CR);
      output := output + [CR];
    }
  }

  /** Unfolding the definition at a byte that does not start a CR-LF pair. */
  lemma Lone(s: seq<uint8>, x: uint8)
    requires x != CR || s == [] || s[0] != LF
    ensures CrlfToLf([x] + s) == [x] + CrlfToLf(s)
  {
    assert ([x] + s)[1..] == s;
  }

  /** Unfolding the definition at a CR-LF pair. */
  lemma Pair(s: seq<uint8>)
    ensures CrlfToLf([CR, LF] + s) == [LF] + CrlfToLf(s)
  {
    assert ([CR, LF] + s)[2..] == s;
  }

  /** The first byte of the output: LF for a leading CR-LF pair, otherwise the
   *  first byte of the input. */
  lemma CrlfToLfHead(b: seq<uint8>)
    requires b != []
    ensures CrlfToLf(b) != []
    ensures CrlfToLf(b)[0] == if |b| >= 2 && b[0] == CR && b[1] == LF then LF else b[0]
  {
  }

  /** Each CR-LF pair loses exactly one byte: the output is as long as the
   *  input minus the pairs the scanner counts. */
  lemma {:induction false} CrlfToLfLength(b: seq<uint8>)
    ensures |CrlfToLf(b)| == |b| - Tally(b).crlf
  {
    if b != [] {
      assert b == [b[0]] + b[1..];
      TallyCons(b[0], b[1..]);
      if |b| >= 2 && b[0] == CR && b[1] == LF {
        assert b[1..] == [b[1]] + b[2..];
        TallyCons(b[1], b[2..]);
        CrlfToLfLength(b[2..]);
      } else {
        CrlfToLfLength(b[1..]);
      }
    }
  }

  /** Only the CR of each CR-LF pair disappears: LF, NUL, printable and
   *  non-printable counts are kept, and the CR count drops by the number of
   *  pairs. */
  lemma {:induction false} CrlfToLfTally(b: seq<uint8>)
    ensures Tally(CrlfToLf(b)).cr + Tally(b).crlf == Tally(b).cr
    ensures Tally(CrlfToLf(b)).lf == Tally(b).lf
    ensures Tally(CrlfToLf(b)).nul == Tally(b).nul
    ensures Tally(CrlfToLf(b)).printable == Tally(b).printable
    ensures Tally(CrlfToLf(b)).nonprintable == Tally(b).nonprintable
  {
    if b != [] {
      assert b == [b[0]] + b[1..];
      TallyCons(b[0], b[1..]);
      if |b| >= 2 && b[0] == CR && b[1] == LF {
        assert b[1..] == [b[1]] + b[2..];
        TallyCons(b[1], b[2..]);
        CrlfToLfTally(b[2..]);
        TallyCons(LF, CrlfToLf(b[2..]));
      } else {
        CrlfToLfTally(b[1..]);
        TallyCons(b[0], CrlfToLf(b[1..]));
      }
    }
  }

  /** A buffer comes out unchanged exactly when it holds no CR-LF pair; lone
   *  CR and LF bytes, in either order, are left alone. */
  lemma {:induction false} CrlfToLfUnchanged(b: seq<uint8>)
    ensures CrlfToLf(b) == b <==> Tally(b).crlf == 0
  {
    CrlfToLfLength(b);
    if Tally(b).crlf == 0 && b != [] {
      assert b == [b[0]] + b[1..];
      TallyCons(b[0], b[1..]);
      CrlfToLfUnchanged(b[1..]);
    }
  }

  /** A buffer in which a CR directly precedes a CR-LF pair. */
  predicate HasCrCrLf(b: seq<uint8>)
  {
    exists i :: 0 <= i < |b| - 2 && b[i] == CR && b[i + 1] == CR && b[i + 2] == LF
  }

  /** CR CR LF occurs at the front of a buffer or further on. */
  lemma HasCrCrLfCons(b: seq<uint8>)
    requires b != []
    ensures HasCrCrLf(b) <==> (|b| >= 3 && b[0] == CR && b[1] == CR && b[2] == LF) || HasCrCrLf(b[1..])
  {
    if HasCrCrLf(b[1..]) {
      var i :| 0 <= i < |b[1..]| - 2 && b[1..][i] == CR && b[1..][i + 1] == CR && b[1..][i + 2] == LF;
      assert b[i + 1] == CR && b[i + 2] == CR && b[i + 3] == LF;
    }
    if HasCrCrLf(b) {
      var i :| 0 <= i < |b| - 2 && b[i] == CR && b[i + 1] == CR && b[i + 2] == LF;
      if i > 0 {
        assert b[1..][i - 1] == CR && b[1..][i] == CR && b[1..][i + 1] == LF;
      }
    }
  }

  /** The output holds a CR-LF pair exactly when the input holds CR CR LF:
   *  dropping the second CR brings the first one next to the LF. */
  lemma {:induction false} CrlfToLfLeavesPair(b: seq<uint8>)
    ensures Tally(CrlfToLf(b)).crlf > 0 <==> HasCrCrLf(b)
  {
    if b == [] {
      return;
    }
    HasCrCrLfCons(b);
    if |b| >= 2 && b[0] == CR && b[1] == LF {
      HasCrCrLfCons(b[1..]);
      assert b[1..][1..] == b[2..];
      CrlfToLfLeavesPair(b[2..]);
      TallyCons(LF, CrlfToLf(b[2..]));
    } else {
      CrlfToLfLeavesPair(b[1..]);
      TallyCons(b[0], CrlfToLf(b[1..]));
      if b[1..] != [] {
        CrlfToLfHead(b[1..]);
      }
    }
  }

  /** Normalising twice gives the same bytes as normalising once exactly when
   *  the input holds no CR CR LF. */
  lemma CrlfToLfIdempotent(b: seq<uint8>)
    ensures CrlfToLf(CrlfToLf(b)) == CrlfToLf(b) <==> !HasCrCrLf(b)
  {
    CrlfToLfLeavesPair(b);
    CrlfToLfUnchanged(CrlfToLf(b));
  }

  /** The smallest input on which a second pass changes the result. */
  lemma CrCrLfNotIdempotent()
    ensures CrlfToLf([CR, CR, LF]) == [CR, LF]
    ensures CrlfToLf(CrlfToLf([CR, CR, LF])) == [LF]
  {
    assert [CR, CR, LF] == [CR] + ([CR, LF] + []);
    Pair([]);
    Lone([CR, LF], CR);
    assert [CR, LF] == [CR, LF] + [];
  }

  /** Regrouping a concatenation of three parts. */
  lemma AppendAssoc(x: seq<uint8>, y: seq<uint8>, z: seq<uint8>)
    ensures x + (y + z) == x + y + z
  {
  }

  /** The step of `CrlfToLfAppend` at a leading CR-LF pair. */
  lemma AppendAfterPair(t: seq<uint8>, c: seq<uint8>)
    requires CrlfToLf(t + c) == CrlfToLf(t) + CrlfToLf(c)
    ensures CrlfToLf([CR, LF] + t + c) == CrlfToLf([CR, LF] + t) + CrlfToLf(c)
  {
    AppendAssoc([CR, LF], t, c);
    AppendAssoc([LF], CrlfToLf(t), CrlfToLf(c));
    Pair(t + c);
    Pair(t);
  }

  /** The step of `CrlfToLfAppend` at a leading byte that starts no pair,
   *  neither before `t` nor, when `t` is empty, before `c`. */
  lemma AppendAfterByte(x: uint8, t: seq<uint8>, c: seq<uint8>)
    requires x != CR || t == [] || t[0] != LF
    requires x != CR || t != [] || c == [] || c[0] != LF
    requires CrlfToLf(t + c) == CrlfToLf(t) + CrlfToLf(c)
    ensures CrlfToLf([x] + t + c) == CrlfToLf([x] + t) + CrlfToLf(c)
  {
    AppendAssoc([x], t, c);
    AppendAssoc([x], CrlfToLf(t), CrlfToLf(c));
    assert t != [] ==> (t + c)[0] == t[0];
    assert t == [] ==> t + c == c;
    Lone(t + c, x);
    Lone(t, x);
  }

  /** Normalising a concatenation normalises the parts, unless the split falls
   *  inside a CR-LF pair. */
  lemma {:induction false} CrlfToLfAppend(a: seq<uint8>, c: seq<uint8>)
    requires Seam(a, c) == 0
    ensures CrlfToLf(a + c) == CrlfToLf(a) + CrlfToLf(c)
  {
    if a == [] {
      assert a + c == c;
    } else if |a| >= 2 && a[0] == CR && a[1] == LF {
      var t := a[2..];
      assert a == [CR, LF] + t;
      assert t != [] ==> t[|t| - 1] == a[|a| - 1];
      CrlfToLfAppend(t, c);
      AppendAfterPair(t, c);
    } else {
      var t := a[1..];
      assert a == [a[0]] + t;
      assert t != [] ==> t[|t| - 1] == a[|a| - 1];
      CrlfToLfAppend(t, c);
      AppendAfterByte(a[0], t, c);
    }
  }

}
