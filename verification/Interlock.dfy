/** The interlock expression language of internal/firewater/interlock.go, lines 133-186:
    "metric OP number" terms joined by " OR ".

    A Go string is a sequence of bytes; here each byte is one character below 256. */
module Interlock {
  const SEP := " OR "

  type Values = map<string, real>

  /** string(s[i]): the UTF-8 encoding of the byte taken as a code point. */
  function Encode(c: char): string {
    if c as int < 128 then [c]
    else [(0xC0 + c as int / 64) as char, (0x80 + c as int % 64) as char]
  }

  /** The two bytes of RFC 3629, section 3: a lead of 110 and five bits, a tail of 10 and six. */
  lemma EncodeIsUtf8(c: char)
    requires 128 <= c as int < 256
    ensures var e := Encode(c);
      && |e| == 2 && 0xC2 <= e[0] as int <= 0xC3 && 0x80 <= e[1] as int <= 0xBF
      && (e[0] as int - 0xC0) * 64 + (e[1] as int - 0x80) == c as int
  {
  }

  /** A text byte by byte as splitOR copies it. */
  function Encoded(s: string): string { if s == "" then "" else Encode(s[0]) + Encoded(s[1..]) }

  predicate Bytes(s: string) { forall i :: 0 <= i < |s| ==> s[i] as int < 256 }

  predicate Ascii(s: string) { forall i :: 0 <= i < |s| ==> s[i] as int < 128 }

  /** The separator stands at position i. */
  predicate SepAt(s: string, i: nat) {
    i + 4 <= |s| && s[i] == ' ' && s[i + 1] == 'O' && s[i + 2] == 'R' && s[i + 3] == ' '
  }

  lemma SepAtIsSlice(s: string, i: nat)
    requires i + 4 <= |s|
    ensures SepAt(s, i) <==> s[i..i + 4] == SEP
  {
    var w := s[i..i + 4];
    assert w[0] == s[i] && w[1] == s[i + 1] && w[2] == s[i + 2] && w[3] == s[i + 3];
    assert SEP == [' ', 'O', 'R', ' '];
  }

  predicate StartsWithSep(s: string) { SepAt(s, 0) }

  // ---- splitOR -------------------------------------------------------------------------

  /** All pieces between separators, read from the left; the last one may be empty. */
  function Pieces(s: string): (ps: seq<string>)
    ensures ps != []
  {
    if s == "" then [""]
    else if StartsWithSep(s) then [""] + Pieces(s[4..])
    else Prepend(Encode(s[0]), Pieces(s[1..]))
  }

  function Prepend(cur: string, ps: seq<string>): (r: seq<string>)
    requires ps != []
    ensures |r| == |ps|
  {
    [cur + ps[0]] + ps[1..]
  }

  /** What splitOR returns: an empty last piece is dropped. */
  function Split(s: string): seq<string> {
    var ps := Pieces(s);
    if ps[|ps| - 1] == "" then ps[..|ps| - 1] else ps
  }

  lemma PrependNothing(ps: seq<string>)
    requires ps != []
    ensures Prepend("", ps) == ps
  {
    assert "" + ps[0] == ps[0];
  }

  lemma PrependToEmpty(cur: string, ps: seq<string>)
    ensures Prepend(cur, [""] + ps) == [cur] + ps
  {
    assert cur + "" == cur && ([""] + ps)[1..] == ps;
  }

  lemma PrependTwice(cur: string, e: string, ps: seq<string>)
    requires ps != []
    ensures Prepend(cur, Prepend(e, ps)) == Prepend(cur + e, ps)
  {
    assert cur + (e + ps[0]) == (cur + e) + ps[0];
  }

  /** The loop has read s[..i]: `out` is complete and `cur` begins the next piece. */
  ghost predicate Scanned(s: string, i: nat, out: seq<string>, cur: string) {
    i <= |s| && out + Prepend(cur, Pieces(s[i..])) == Pieces(s)
  }

  lemma ScanSep(s: string, i: nat, out: seq<string>, cur: string)
    requires Scanned(s, i, out, cur) && SepAt(s, i)
    ensures Scanned(s, i + 4, out + [cur], "")
  {
    var rest, ps := s[i..], Pieces(s[i + 4..]);
    assert StartsWithSep(rest) && rest[4..] == s[i + 4..];
    PrependToEmpty(cur, ps);
    PrependNothing(ps);
    assert out + ([cur] + ps) == (out + [cur]) + ps;
  }

  lemma ScanChar(s: string, i: nat, out: seq<string>, cur: string)
    requires Scanned(s, i, out, cur) && i < |s| && !SepAt(s, i)
    ensures Scanned(s, i + 1, out, cur + Encode(s[i]))
  {
    var rest := s[i..];
    assert !StartsWithSep(rest) && rest[1..] == s[i + 1..];
    PrependTwice(cur, Encode(s[i]), Pieces(s[i + 1..]));
  }

  lemma ScanEnd(s: string, out: seq<string>, cur: string)
    requires Scanned(s, |s|, out, cur)
    ensures Pieces(s) == out + [cur]
  {
    assert s[|s|..] == "" && [""] + [] == [""];
    PrependToEmpty(cur, []);
  }

  method SplitOR(s: string) returns (out: seq<string>)
    ensures out == Split(s)
  {
    out := [];
    var cur := "";
    var i := 0;
    PrependNothing(Pieces(s));
    assert s[0..] == s;
    while i < |s|
      invariant Scanned(s, i, out, cur)
    {
      if i + 4 <= |s| {
        SepAtIsSlice(s, i);
      }
      if i + 4 <= |s| && s[i..i + 4] == SEP {
        ScanSep(s, i, out, cur);
        out := out + [cur];
        cur := "";
        i := i + 4;
        continue;
      }
      ScanChar(s, i, out, cur);
      cur := cur + Encode(s[i]);
      i := i + 1;
    }
    ScanEnd(s, out, cur);
    if cur != "" {
      out := out + [cur];
    }
  }

  function Join(ps: seq<string>): string {
    if ps == [] then ""
    else if |ps| == 1 then ps[0]
    else ps[0] + SEP + Join(ps[1..])
  }

  lemma JoinPrepend(cur: string, ps: seq<string>)
    requires ps != []
    ensures Join(Prepend(cur, ps)) == cur + Join(ps)
  {
    if |ps| > 1 {
      assert Prepend(cur, ps)[1..] == ps[1..];
      assert (cur + ps[0]) + SEP + Join(ps[1..]) == cur + (ps[0] + SEP + Join(ps[1..]));
    }
  }

  lemma {:induction false} PiecesRejoin(s: string)
    requires Ascii(s)
    ensures Join(Pieces(s)) == s
  {
    if s == "" {
    } else if StartsWithSep(s) {
      PiecesRejoin(s[4..]);
      assert ([""] + Pieces(s[4..]))[1..] == Pieces(s[4..]);
      assert s == SEP + s[4..];
    } else {
      PiecesRejoin(s[1..]);
      JoinPrepend(Encode(s[0]), Pieces(s[1..]));
      assert s == [s[0]] + s[1..];
    }
  }

  /** The first piece of a text starts like the text itself. */
  lemma {:induction false} FirstPieceIsPrefix(s: string, w: string)
    requires Ascii(w) && w <= Pieces(s)[0]
    ensures w <= s
  {
    if w != "" {
      assert Pieces(s)[0] == Encode(s[0]) + Pieces(s[1..])[0];
      assert Pieces(s)[0][0] == w[0];
      assert s[0] == w[0];
      assert w[1..] <= Pieces(s[1..])[0] by {
        assert Pieces(s)[0][1..] == Pieces(s[1..])[0];
      }
      FirstPieceIsPrefix(s[1..], w[1..]);
    }
  }

  /** A separator that began inside the encoding of c would have begun at c in the text. */
  lemma SepAtFront(c: char, t: string, first: string, i: nat)
    requires first == Pieces(t)[0] && i < |Encode(c)| && SepAt(Encode(c) + first, i)
    ensures StartsWithSep([c] + t)
  {
    assert Encode(c) == [c] && i == 0;
    var w := first[..3];
    assert w == ['O', 'R', ' '];
    FirstPieceIsPrefix(t, w);
    assert t[..3] == w;
  }

  /** No piece contains the separator, whatever the text. */
  lemma {:induction false} PiecesHaveNoSeparator(s: string, k: nat, i: nat)
    requires k < |Pieces(s)|
    ensures !SepAt(Pieces(s)[k], i)
  {
    if s == "" {
    } else if StartsWithSep(s) {
      if k > 0 {
        PiecesHaveNoSeparator(s[4..], k - 1, i);
      }
    } else {
      var e, first := Encode(s[0]), Pieces(s[1..])[0];
      assert [s[0]] + s[1..] == s;
      if k > 0 {
        PiecesHaveNoSeparator(s[1..], k, i);
      } else if i >= |e| {
        PiecesHaveNoSeparator(s[1..], 0, i - |e|);
        assert forall k: nat :: k < |first| ==> (e + first)[|e| + k] == first[k];
      } else if SepAt(e + first, i) {
        SepAtFront(s[0], s[1..], first, i);
      }
    }
  }

  // ---- exactly when rejoining restores the text ----------------------------------------

  function NonAscii(s: string): nat {
    if s == "" then 0 else (if s[0] as int < 128 then 0 else 1) + NonAscii(s[1..])
  }

  lemma {:induction false} NonAsciiConcat(s: string, t: string)
    ensures NonAscii(s + t) == NonAscii(s) + NonAscii(t)
  {
    if s == "" {
      assert s + t == t;
    } else {
      NonAsciiConcat(s[1..], t);
      assert (s + t)[1..] == s[1..] + t;
    }
  }

  lemma {:induction false} NonAsciiZero(s: string)
    ensures NonAscii(s) == 0 <==> Ascii(s)
  {
    if s != "" {
      NonAsciiZero(s[1..]);
      assert Ascii(s) <==> s[0] as int < 128 && Ascii(s[1..]);
    }
  }

  lemma {:induction false} SplittingDoublesNonAscii(s: string)
    ensures NonAscii(Join(Pieces(s))) == 2 * NonAscii(s)
  {
    if s == "" {
    } else if StartsWithSep(s) {
      SplittingDoublesNonAscii(s[4..]);
      assert ([""] + Pieces(s[4..]))[1..] == Pieces(s[4..]);
      assert s == SEP + s[4..];
      assert NonAscii(SEP) == 0 by {
        NonAsciiZero(SEP);
      }
      NonAsciiConcat(SEP, s[4..]);
      NonAsciiConcat(SEP, Join(Pieces(s[4..])));
      assert Join(Pieces(s)) == SEP + Join(Pieces(s[4..]));
    } else {
      SplittingDoublesNonAscii(s[1..]);
      JoinPrepend(Encode(s[0]), Pieces(s[1..]));
      NonAsciiConcat(Encode(s[0]), Join(Pieces(s[1..])));
      EncodeDoubles(s[0]);
    }
  }

  lemma EncodeDoubles(c: char)
    ensures NonAscii(Encode(c)) == if c as int < 128 then 0 else 2
  {
    if c as int >= 128 {
      var e := Encode(c);
      assert e[0] as int >= 128 && e[1] as int >= 128;
      assert e[1..] == [e[1]] && [e[1]][1..] == "";
      assert NonAscii(e) == 1 + NonAscii([e[1]]) && NonAscii([e[1]]) == 1 + NonAscii("");
    }
  }

  /** How many separators, each sharing a blank with the next, the text ends in. */
  function TrailingChain(s: string): nat {
    if |s| >= 4 && SepAt(s, |s| - 4) then 1 + TrailingChain(s[..|s| - 3]) else 0
  }

  predicate OrAtEnd(s: string) {
    |s| >= 3 && s[|s| - 3] == 'O' && s[|s| - 2] == 'R' && s[|s| - 1] == ' '
  }

  /** The text is "OR " over and over. */
  predicate AllOr(s: string) {
    s == "" || (OrAtEnd(s) && AllOr(s[..|s| - 3]))
  }

  /** A character in front lengthens the chain only by completing a text that is all chain. */
  lemma {:induction false} ChainPrepend(c: char, s: string)
    ensures TrailingChain([c] + s) == TrailingChain(s) + (if c == ' ' && s != "" && AllOr(s) then 1 else 0)
    decreases |s|
  {
    if |s| >= 4 {
      SepAtEndOfLonger(c, s);
      var r := s[..|s| - 3];
      assert ([c] + s)[..|s| - 2] == [c] + r;
      ChainPrepend(c, r);
      if AllOr(s) {
        AllOrEndsChain(s);
      }
    } else {
      ChainOfShort(c, s);
    }
  }

  lemma SepAtEndOfLonger(c: char, s: string)
    requires |s| >= 4
    ensures SepAt([c] + s, |s| - 3) <==> SepAt(s, |s| - 4)
  {
    var t := [c] + s;
    assert t[|s| - 3] == s[|s| - 4] && t[|s| - 2] == s[|s| - 3] && t[|s| - 1] == s[|s| - 2] && t[|s|] == s[|s| - 1];
  }

  lemma ChainOfShort(c: char, s: string)
    requires |s| < 4
    ensures TrailingChain(s) == 0
    ensures TrailingChain([c] + s) == if c == ' ' && s != "" && AllOr(s) then 1 else 0
  {
    var t := [c] + s;
    if |s| == 3 {
      assert t[1] == s[0] && t[2] == s[1] && t[3] == s[2];
      assert s[..0] == "" && t[..1] == [c];
      assert TrailingChain([c]) == 0;
    }
  }

  lemma AllOrEndsChain(s: string)
    requires AllOr(s) && |s| >= 4
    ensures SepAt(s, |s| - 4)
  {
    var r := s[..|s| - 3];
    assert OrAtEnd(r) && r[|r| - 1] == s[|s| - 4];
  }

  lemma {:induction false} AllOrPrepend(s: string)
    ensures AllOr(['O', 'R', ' '] + s) <==> AllOr(s)
    decreases |s|
  {
    var t := ['O', 'R', ' '] + s;
    assert forall k :: 0 <= k < |s| ==> t[k + 3] == s[k];
    if |s| >= 3 {
      assert t[..|t| - 3] == ['O', 'R', ' '] + s[..|s| - 3];
      AllOrPrepend(s[..|s| - 3]);
    } else if s == "" {
      assert t[..0] == "";
    } else if AllOr(t) {
      AllOrStartsWithOr(t);
    }
  }

  lemma {:induction false} AllOrStartsWithOr(s: string)
    requires AllOr(s) && s != ""
    ensures |s| % 3 == 0 && s[0] == 'O' && s[1] == 'R' && s[2] == ' '
  {
    if |s| > 3 {
      AllOrStartsWithOr(s[..|s| - 3]);
    }
  }

  lemma ChainPrependBlank(s: string)
    ensures TrailingChain(['R', ' '] + s) == TrailingChain(s) + (if s != "" && AllOr(s) then 1 else 0)
  {
    ChainPrepend(' ', s);
    ChainPrepend('R', [' '] + s);
    assert ['R'] + ([' '] + s) == ['R', ' '] + s;
  }

  lemma ChainPrependOr(s: string)
    ensures TrailingChain(['O', 'R', ' '] + s) == TrailingChain(s) + (if s != "" && AllOr(s) then 1 else 0)
  {
    ChainPrependBlank(s);
    ChainPrepend('O', ['R', ' '] + s);
    assert ['O'] + (['R', ' '] + s) == ['O', 'R', ' '] + s;
  }

  lemma ChainPrependSep(s: string)
    ensures TrailingChain(SEP + s) == TrailingChain(s) + (if s == "" then 1 else if AllOr(s) then 2 else 0)
  {
    ChainPrependOr(s);
    ChainPrepend(' ', ['O', 'R', ' '] + s);
    assert [' '] + (['O', 'R', ' '] + s) == SEP + s;
    AllOrPrepend(s);
  }

  /** The scan drops a last empty piece exactly when the trailing chain is odd. */
  lemma {:induction false} LastPieceEmpty(s: string)
    ensures Pieces(s)[|Pieces(s)| - 1] == "" <==> s == "" || TrailingChain(s) % 2 == 1
  {
    if s == "" {
    } else if StartsWithSep(s) {
      LastPieceEmpty(s[4..]);
      assert s == SEP + s[4..];
      ChainPrependSep(s[4..]);
      assert Pieces(s) == [""] + Pieces(s[4..]);
    } else {
      LastPieceEmpty(s[1..]);
      LastOfPrepend(s);
      ChainOfRest(s);
    }
  }

  /** Away from a separator the first character does not matter to the chain. */
  lemma ChainOfRest(s: string)
    requires s != "" && !StartsWithSep(s)
    ensures TrailingChain(s) == TrailingChain(s[1..])
  {
    var t := s[1..];
    assert s == [s[0]] + t;
    ChainPrepend(s[0], t);
    if t != "" && AllOr(t) {
      AllOrStartsWithOr(t);
    }
  }

  lemma LastOfPrepend(s: string)
    requires s != "" && !StartsWithSep(s)
    ensures var ps, qs := Pieces(s), Pieces(s[1..]);
      ps[|ps| - 1] == "" <==> |qs| > 1 && qs[|qs| - 1] == ""
    ensures |Pieces(s[1..])| == 1 && Pieces(s[1..])[0] == "" ==> s[1..] == ""
  {
    var t := s[1..];
    if t != "" && StartsWithSep(t) {
      assert |Pieces(t)| >= 2;
    }
  }

  lemma {:induction false} JoinDropLast(ps: seq<string>)
    requires |ps| >= 2 && ps[|ps| - 1] == ""
    ensures Join(ps) == Join(ps[..|ps| - 1]) + SEP
  {
    var qs := ps[..|ps| - 1];
    if |ps| == 2 {
      assert ps[1..] == [ps[1]] && qs == [ps[0]];
    } else {
      JoinDropLast(ps[1..]);
      assert ps[1..][..|ps| - 2] == qs[1..];
    }
  }

  lemma OnePieceIsText(s: string)
    requires s != "" && Pieces(s)[|Pieces(s)| - 1] == ""
    ensures |Pieces(s)| >= 2
  {
    if !StartsWithSep(s) {
      LastOfPrepend(s);
    }
  }

  lemma DroppedPiece(s: string)
    requires s != "" && Pieces(s)[|Pieces(s)| - 1] == ""
    ensures Join(Pieces(s)) == Join(Split(s)) + SEP
  {
    OnePieceIsText(s);
    JoinDropLast(Pieces(s));
  }

  lemma SplitDoublesNonAscii(s: string)
    ensures NonAscii(Join(Split(s))) == 2 * NonAscii(s)
  {
    SplittingDoublesNonAscii(s);
    if s != "" && Pieces(s)[|Pieces(s)| - 1] == "" {
      DroppedPiece(s);
      NonAsciiConcat(Join(Split(s)), SEP);
      NonAsciiZero(SEP);
    }
  }

  lemma AsciiRejoins(s: string)
    requires Ascii(s) && s != ""
    ensures Join(Split(s)) == s <==> Pieces(s)[|Pieces(s)| - 1] != ""
  {
    PiecesRejoin(s);
    if Pieces(s)[|Pieces(s)| - 1] == "" {
      DroppedPiece(s);
      assert |Join(Split(s))| == |s| - 4;
    }
  }

  lemma OnlyAsciiRejoins(s: string)
    requires Join(Split(s)) == s
    ensures Ascii(s)
  {
    SplitDoublesNonAscii(s);
    NonAsciiZero(s);
  }

  /** Rejoining what splitOR returns gives the text back if and only if the text is ASCII and
      does not end in an odd chain of separators (such as a single " OR "). */
  lemma RejoinsExactlyWhen(s: string)
    ensures Join(Split(s)) == s <==> Ascii(s) && TrailingChain(s) % 2 == 0
  {
    if s != "" {
      LastPieceEmpty(s);
      if Ascii(s) {
        AsciiRejoins(s);
      } else if Join(Split(s)) == s {
        OnlyAsciiRejoins(s);
      }
    }
  }
}
