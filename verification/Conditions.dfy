/** Terms of the interlock language: how fmt.Sscanf reads "%s %s %f", what a term means, and
    that printed conditions are read back with their meaning
    (internal/firewater/interlock.go, lines 133-186). */
module Conditions {
  import opened Common
  import opened Interlock

  // ---- fmt.Sscanf with "%s %s %f" ------------------------------------------------------

  /** A piece as fmt reads it, one code point after the other. Pieces are made of the encodings
      of bytes, so no other sequences occur in them. */
  function Decode(s: string): string {
    if s == "" then ""
    else if |s| >= 2 && 0xC2 <= s[0] as int <= 0xC3 && 0x80 <= s[1] as int < 0xC0
    then [((s[0] as int - 0xC0) * 64 + (s[1] as int - 0x80)) as char] + Decode(s[2..])
    else [s[0]] + Decode(s[1..])
  }

  /** The blanks below 256: the ASCII ones, U+0085 and U+00A0. */
  predicate IsSpace(c: char) { 9 <= c as int <= 13 || c == ' ' || c as int == 0x85 || c as int == 0xA0 }

  /** Skipping blanks before a verb; a newline is an error. */
  function SkipSpace(s: string): Option<string> {
    if s == "" then Some(s)
    else if s[0] == '\n' then None
    else if IsSpace(s[0]) then SkipSpace(s[1..])
    else Some(s)
  }

  /** The longest prefix without blanks, and the rest. */
  function TakeWord(s: string): (string, string) {
    if s == "" || IsSpace(s[0]) then ("", s)
    else var (w, rest) := TakeWord(s[1..]); ([s[0]] + w, rest)
  }

  /** The verb %s. */
  function ScanWord(s: string): Option<(string, string)> {
    match SkipSpace(s)
    case None => None
    case Some(t) => if t == "" then None else Some(TakeWord(t))
  }

  function SkipBlanks(s: string): string {
    if s != "" && IsSpace(s[0]) && s[0] != '\n' then SkipBlanks(s[1..]) else s
  }

  /** A blank of the format: at least one blank, or the end of the input. */
  function FormatBlank(s: string): Option<string> {
    if s == "" then Some("")
    else if !IsSpace(s[0]) || s[0] == '\n' then None
    else Some(SkipBlanks(s))
  }

  predicate IsDigit(c: char) { '0' <= c <= '9' }

  function TakeDigits(s: string): (string, string) {
    if s == "" || !IsDigit(s[0]) then ("", s)
    else var (w, rest) := TakeDigits(s[1..]); ([s[0]] + w, rest)
  }

  function DigitsValue(ds: string): int {
    if ds == "" then 0
    else 10 * DigitsValue(ds[..|ds| - 1]) + (ds[|ds| - 1] as int - '0' as int)
  }

  function Pow10(k: nat): (p: int)
    ensures p > 0
  {
    if k == 0 then 1 else 10 * Pow10(k - 1)
  }

  /** The digits behind a decimal point, if there is one. */
  function Fraction(s: string): string { if s != "" && s[0] == '.' then TakeDigits(s[1..]).0 else "" }

  function Magnitude(whole: string, fraction: string): Option<real> {
    if whole + fraction == "" then None
    else Some(DigitsValue(whole + fraction) as real / Pow10(|fraction|) as real)
  }

  /** An unsigned decimal number: digits and a fraction. */
  function ScanMagnitude(t: string): Option<real> {
    var (whole, rest) := TakeDigits(t);
    Magnitude(whole, Fraction(rest))
  }

  /** The verb %f on decimal numbers. */
  function ScanNumber(s: string): Option<real> {
    match SkipSpace(s)
    case None => None
    case Some(t) =>
      if t == "" then None
      else if t[0] == '-' then Negated(ScanMagnitude(t[1..]))
      else if t[0] == '+' then ScanMagnitude(t[1..])
      else ScanMagnitude(t)
  }

  function Negated(r: Option<real>): Option<real> {
    match r case None => None case Some(x) => Some(-x)
  }

  // ---- cmp and whenTrue ----------------------------------------------------------------

  predicate Compare(op: string, got: real, num: real) {
    if op == "<" then got < num
    else if op == "<=" then got <= num
    else if op == ">" then got > num
    else if op == ">=" then got >= num
    else if op == "==" then got == num
    else false
  }

  /** What Sscanf makes of a text, code point by code point: metric, operator and number. */
  function Scan(text: string): Option<(string, string, real)> {
    match ScanWord(text)
    case None => None
    case Some((metric, s1)) =>
      match FormatBlank(s1)
      case None => None
      case Some(s2) =>
        match ScanWord(s2)
        case None => None
        case Some((op, s3)) =>
          match FormatBlank(s3)
          case None => None
          case Some(s4) =>
            match ScanNumber(s4)
            case None => None
            case Some(num) => Some((metric, op, num))
  }

  /** One term; whatever Sscanf cannot read completely is false. The name it looks up is
      written back in UTF-8. */
  predicate Cmp(expr: string, v: Values) {
    match Scan(Decode(expr))
    case None => false
    case Some((metric, op, num)) => Compare(op, Get(v, Encoded(metric)), num)
  }

  predicate SomeHolds(parts: seq<string>, v: Values) {
    exists i :: 0 <= i < |parts| && Cmp(parts[i], v)
  }

  /** The condition as a whole: true when empty, else some piece holds. */
  predicate Holds(expr: string, v: Values) {
    expr == "" || SomeHolds(Split(expr), v)
  }

  method WhenTrue(expr: string, v: Values) returns (r: bool)
    ensures r == Holds(expr, v)
  {
    if expr == "" {
      return true;
    }
    var parts := SplitOR(expr);
    r := AnyPasses(parts, p => Cmp(p, v));
  }

  /** The loop over the pieces, up to the first that passes. */
  method AnyPasses(parts: seq<string>, test: string -> bool) returns (r: bool)
    ensures r <==> exists i :: 0 <= i < |parts| && test(parts[i])
  {
    for i := 0 to |parts|
      invariant forall k :: 0 <= k < i ==> !test(parts[k])
    {
      if test(parts[i]) {
        return true;
      }
    }
    return false;
  }

  // ---- the abstract syntax -------------------------------------------------------------

  datatype Op = Lt | Le | Gt | Ge | Eq

  /** metric op mantissa / 10^scale */
  datatype Atom = Atom(metric: string, op: Op, mantissa: int, scale: nat)

  predicate Word(s: string) { s != "" && forall i :: 0 <= i < |s| ==> !IsSpace(s[i]) }

  /** The metric is any sequence of bytes that has no blank among them. */
  predicate Valid(a: Atom) { Word(a.metric) && Bytes(a.metric) }

  /** The term whose metric is the re-encoded name. */
  function Reencoded(a: Atom): Atom { a.(metric := Encoded(a.metric)) }

  function Number(a: Atom): real { a.mantissa as real / Pow10(a.scale) as real }

  predicate True(a: Atom, v: Values) {
    var got, num := Get(v, a.metric), Number(a);
    match a.op
    case Lt => got < num
    case Le => got <= num
    case Gt => got > num
    case Ge => got >= num
    case Eq => got == num
  }

  // ---- printing ------------------------------------------------------------------------

  function OpText(op: Op): string {
    match op
    case Lt => "<" case Le => "<=" case Gt => ">" case Ge => ">=" case Eq => "=="
  }

  function Digit(d: nat): (c: char)
    requires d < 10
    ensures IsDigit(c)
  {
    ('0' as int + d) as char
  }

  /** The decimal digits of n, at least `width` of them. */
  function Decimal(n: nat, width: nat): (ds: string)
    ensures |ds| >= width && forall i :: 0 <= i < |ds| ==> IsDigit(ds[i])
    decreases n + width
  {
    if n == 0 && width == 0 then ""
    else Decimal(n / 10, if width == 0 then 0 else width - 1) + [Digit(n % 10)]
  }

  function Abs(m: int): nat { if m < 0 then -m else m }

  function Unsigned(n: nat, k: nat): string {
    var ds := Decimal(n, k + 1);
    if k == 0 then ds else ds[..|ds| - k] + "." + ds[|ds| - k..]
  }

  function NumberText(m: int, k: nat): string {
    if m < 0 then "-" + Unsigned(-m, k) else Unsigned(m, k)
  }

  function AtomText(a: Atom): string {
    a.metric + " " + OpText(a.op) + " " + NumberText(a.mantissa, a.scale)
  }

  function Texts(atoms: seq<Atom>): (ts: seq<string>)
    ensures |ts| == |atoms| && forall i :: 0 <= i < |ts| ==> ts[i] == AtomText(atoms[i])
  {
    seq(|atoms|, i requires 0 <= i < |atoms| => AtomText(atoms[i]))
  }

  // ---- reading back what was printed ---------------------------------------------------

  lemma DigitsSnoc(ds: string, d: nat)
    requires d < 10
    ensures DigitsValue(ds + [Digit(d)]) == 10 * DigitsValue(ds) + d
  {
    assert (ds + [Digit(d)])[..|ds|] == ds;
  }

  lemma {:induction false} DecimalValue(n: nat, width: nat)
    ensures DigitsValue(Decimal(n, width)) == n
    decreases n + width
  {
    if n != 0 || width != 0 {
      var q, w := n / 10, if width == 0 then 0 else width - 1;
      DecimalValue(q, w);
      DigitsSnoc(Decimal(q, w), n % 10);
      assert Decimal(n, width) == Decimal(q, w) + [Digit(n % 10)];
    }
  }

  lemma {:induction false} TakeWordStops(w: string, rest: string)
    requires forall i :: 0 <= i < |w| ==> !IsSpace(w[i])
    requires rest == "" || IsSpace(rest[0])
    ensures TakeWord(w + rest) == (w, rest)
  {
    if w == "" {
      assert w + rest == rest;
    } else {
      TakeWordStops(w[1..], rest);
      assert (w + rest)[1..] == w[1..] + rest;
      assert [w[0]] + w[1..] == w;
    }
  }

  lemma {:induction false} TakeDigitsStops(w: string, rest: string)
    requires forall i :: 0 <= i < |w| ==> IsDigit(w[i])
    requires rest == "" || !IsDigit(rest[0])
    ensures TakeDigits(w + rest) == (w, rest)
  {
    if w == "" {
      assert w + rest == rest;
    } else {
      TakeDigitsStops(w[1..], rest);
      assert (w + rest)[1..] == w[1..] + rest;
      assert [w[0]] + w[1..] == w;
    }
  }

  /** Blanks other than line ends; there may be none. */
  predicate Blanks(s: string) { forall i :: 0 <= i < |s| ==> IsSpace(s[i]) && s[i] != '\n' }

  lemma {:induction false} BlanksAreSkipped(b: string, rest: string)
    requires Blanks(b) && rest != "" && !IsSpace(rest[0])
    ensures SkipSpace(b + rest) == Some(rest) && SkipBlanks(b + rest) == rest
  {
    if b == "" {
      assert b + rest == rest;
    } else {
      BlanksAreSkipped(b[1..], rest);
      assert (b + rest)[1..] == b[1..] + rest;
    }
  }

  /** A word between blanks, and what Sscanf goes on with. */
  lemma WordBetweenBlanks(lead: string, w: string, b: string, rest: string)
    requires Blanks(lead) && Word(w) && Blanks(b) && b != "" && rest != "" && !IsSpace(rest[0])
    ensures ScanWord(lead + (w + (b + rest))) == Some((w, b + rest)) && FormatBlank(b + rest) == Some(rest)
  {
    var tail := w + (b + rest);
    assert tail[0] == w[0] && (b + rest)[0] == b[0];
    BlanksAreSkipped(lead, tail);
    TakeWordStops(w, b + rest);
    BlanksAreSkipped(b, rest);
  }

  /** What may follow a number: nothing, or something that no number goes on with. */
  predicate Ends(rest: string) { rest == "" || IsSpace(rest[0]) }

  /** A printed number starts with a sign or a digit. */
  lemma NumberTextShape(m: int, k: nat)
    ensures var t := NumberText(m, k);
      t != "" && (forall i :: 0 <= i < |t| ==> IsDigit(t[i]) || t[i] == '.' || t[i] == '-')
      && (t[0] == '-' <==> m < 0) && t[0] != '+'
  {
    var ds := Decimal(Abs(m), k + 1);
    if k > 0 {
      assert |ds[..|ds| - k]| > 0 && ds[..|ds| - k][0] == ds[0];
    }
  }

  lemma WholeReadsBack(whole: string, rest: string)
    requires (forall i :: 0 <= i < |whole| ==> IsDigit(whole[i])) && Ends(rest)
    ensures ScanMagnitude(whole + rest) == Magnitude(whole, "")
  {
    TakeDigitsStops(whole, rest);
  }

  lemma FractionReadsBack(whole: string, fraction: string, rest: string)
    requires forall i :: 0 <= i < |whole| ==> IsDigit(whole[i])
    requires (forall i :: 0 <= i < |fraction| ==> IsDigit(fraction[i])) && Ends(rest)
    ensures ScanMagnitude(whole + ("." + (fraction + rest))) == Magnitude(whole, fraction)
  {
    var tail := "." + (fraction + rest);
    TakeDigitsStops(whole, tail);
    assert tail[0] == '.' && tail[1..] == fraction + rest;
    TakeDigitsStops(fraction, rest);
  }

  lemma MagnitudeOfDigits(whole: string, fraction: string, n: nat)
    requires whole + fraction == Decimal(n, |fraction| + 1)
    ensures Magnitude(whole, fraction) == Some(n as real / Pow10(|fraction|) as real)
  {
    DecimalValue(n, |fraction| + 1);
  }

  lemma UnsignedParts(n: nat, k: nat) returns (whole: string, fraction: string)
    ensures whole + fraction == Decimal(n, k + 1) && |fraction| == k
    ensures Unsigned(n, k) == if k == 0 then whole else whole + "." + fraction
    ensures k == 0 ==> fraction == ""
    ensures forall i :: 0 <= i < |whole| ==> IsDigit(whole[i])
    ensures forall i :: 0 <= i < |fraction| ==> IsDigit(fraction[i])
  {
    var ds := Decimal(n, k + 1);
    whole, fraction := ds[..|ds| - k], ds[|ds| - k..];
  }

  lemma MagnitudeReadsBack(n: nat, k: nat, rest: string)
    requires Ends(rest)
    ensures ScanMagnitude(Unsigned(n, k) + rest) == Some(n as real / Pow10(k) as real)
  {
    var whole, fraction := UnsignedParts(n, k);
    MagnitudeOfDigits(whole, fraction, n);
    PartsReadBack(whole, fraction, Unsigned(n, k), rest);
  }

  lemma RightToLeft(w: string, x: string, y: string, z: string)
    ensures w + x + y + z == w + (x + (y + z))
  {
  }

  lemma PartsReadBack(whole: string, fraction: string, text: string, rest: string)
    requires (forall i :: 0 <= i < |whole| ==> IsDigit(whole[i])) && Ends(rest)
    requires forall i :: 0 <= i < |fraction| ==> IsDigit(fraction[i])
    requires text == if fraction == "" then whole else whole + "." + fraction
    ensures ScanMagnitude(text + rest) == Magnitude(whole, fraction)
  {
    if fraction == "" {
      WholeReadsBack(whole, rest);
    } else {
      FractionReadsBack(whole, fraction, rest);
      RightToLeft(whole, ".", fraction, rest);
    }
  }

  lemma NegatedQuotient(x: real, p: real)
    requires p > 0.0
    ensures -(-x / p) == x / p
  {
    assert (-x / p) * p == -x;
    assert (x / p) * p == x;
    assert (-x / p + x / p) * p == 0.0;
  }

  lemma SignReadsBack(t: string, x: real)
    requires t != "" && IsDigit(t[0]) && ScanMagnitude(t) == Some(x)
    ensures ScanNumber(t) == Some(x) && ScanNumber("-" + t) == Some(-x) && ScanNumber("+" + t) == Some(x)
  {
    assert ("+" + t)[0] == '+' && ("+" + t)[1..] == t && SkipSpace("+" + t) == Some("+" + t);
    assert SkipSpace(t) == Some(t);
    assert ("-" + t)[0] == '-' && ("-" + t)[1..] == t;
    assert SkipSpace("-" + t) == Some("-" + t);
  }

  lemma SignedReadsBack(n: nat, k: nat, t: string, x: real, rest: string)
    requires t == Unsigned(n, k) + rest && x == n as real / Pow10(k) as real && Ends(rest)
    ensures ScanNumber(t) == Some(x) && ScanNumber("-" + t) == Some(-x) && ScanNumber("+" + t) == Some(x)
  {
    UnsignedStartsWithDigit(n, k);
    assert t[0] == Unsigned(n, k)[0];
    MagnitudeReadsBack(n, k, rest);
    SignReadsBack(t, x);
  }

  lemma QuotientSign(m: int, p: real, x: real)
    requires p > 0.0 && x == Abs(m) as real / p
    ensures m as real / p == if m < 0 then -x else x
  {
    if m < 0 {
      assert Abs(m) as real == -(m as real);
      NegatedQuotient(m as real, p);
    }
  }

  lemma NumberTextThen(m: int, k: nat, rest: string)
    ensures NumberText(m, k) + rest
         == if m < 0 then "-" + (Unsigned(Abs(m), k) + rest) else Unsigned(Abs(m), k) + rest
  {
    assert "-" + Unsigned(Abs(m), k) + rest == "-" + (Unsigned(Abs(m), k) + rest);
  }

  lemma PrintedReadsBack(m: int, k: nat, t: string, x: real, rest: string)
    requires t == NumberText(m, k) + rest && x == m as real / Pow10(k) as real && Ends(rest)
    ensures ScanNumber(t) == Some(x) && (m >= 0 ==> ScanNumber("+" + t) == Some(x))
  {
    var u, y := Unsigned(Abs(m), k) + rest, Abs(m) as real / Pow10(k) as real;
    SignedReadsBack(Abs(m), k, u, y, rest);
    QuotientSign(m, Pow10(k) as real, y);
    NumberTextThen(m, k, rest);
  }

  /** Reading a printed number gives the number, whatever follows after a blank; so does reading
      it with a plus sign. */
  lemma NumberReadsBack(m: int, k: nat, rest: string)
    requires Ends(rest)
    ensures ScanNumber(NumberText(m, k) + rest) == Some(m as real / Pow10(k) as real)
    ensures m >= 0 ==> ScanNumber("+" + (NumberText(m, k) + rest)) == Some(m as real / Pow10(k) as real)
  {
    PrintedReadsBack(m, k, NumberText(m, k) + rest, m as real / Pow10(k) as real, rest);
  }

  lemma UnsignedStartsWithDigit(n: nat, k: nat)
    ensures Unsigned(n, k) != "" && IsDigit(Unsigned(n, k)[0])
  {
    var ds := Decimal(n, k + 1);
    if k > 0 {
      assert |ds[..|ds| - k]| > 0 && ds[..|ds| - k][0] == ds[0];
    }
  }

  lemma CompareIsTrue(a: Atom, v: Values)
    ensures Compare(OpText(a.op), Get(v, a.metric), Number(a)) == True(a, v)
  {
  }

  lemma DecodeFront(c: char, t: string)
    requires c as int < 256
    ensures Decode(Encode(c) + t) == [c] + Decode(t)
  {
    var s, e := Encode(c) + t, Encode(c);
    if c as int < 128 {
      assert s[1..] == t;
    } else {
      assert s[0] == e[0] && s[1] == e[1] && s[2..] == t;
    }
  }

  lemma {:induction false} DecodeEncoded(s: string)
    requires Bytes(s)
    ensures Decode(Encoded(s)) == s
  {
    if s != "" {
      DecodeEncoded(s[1..]);
      DecodeFront(s[0], Encoded(s[1..]));
    }
  }

  /** Every piece of every byte string is what Decode takes it to be. */
  lemma {:induction false} PiecesAreEncoded(s: string, k: nat)
    requires Bytes(s) && k < |Pieces(s)|
    ensures Encoded(Decode(Pieces(s)[k])) == Pieces(s)[k] && Bytes(Decode(Pieces(s)[k]))
  {
    if s == "" {
    } else if StartsWithSep(s) {
      if k > 0 {
        PiecesAreEncoded(s[4..], k - 1);
      }
    } else {
      PiecesAreEncoded(s[1..], k);
      if k == 0 {
        var first := Pieces(s[1..])[0];
        DecodeFront(s[0], first);
        assert ([s[0]] + Decode(first))[1..] == Decode(first);
      }
    }
  }

  lemma {:induction false} EncodedLength(s: string)
    ensures |Encoded(s)| == |s| + NonAscii(s)
  {
    if s != "" {
      EncodedLength(s[1..]);
    }
  }

  lemma {:induction false} AsciiIsEncoded(s: string)
    requires Ascii(s)
    ensures Encoded(s) == s
  {
    if s != "" {
      AsciiIsEncoded(s[1..]);
      assert [s[0]] + s[1..] == s;
    }
  }

  lemma EncodedKeepsExactlyAscii(s: string)
    ensures Encoded(s) == s <==> Ascii(s)
    ensures s != "" ==> Encoded(s) != ""
  {
    EncodedLength(s);
    NonAsciiZero(s);
    if Ascii(s) {
      AsciiIsEncoded(s);
    }
  }

  /** Where a term leaves room: blanks before it, two runs of blanks inside, and a rest. */
  datatype Layout = Layout(lead: string, first: string, second: string, rest: string)

  predicate Fits(l: Layout) {
    && Blanks(l.lead) && Blanks(l.first) && l.first != "" && Blanks(l.second) && l.second != "" && Ends(l.rest)
    && Bytes(l.lead) && Bytes(l.first) && Bytes(l.second) && Bytes(l.rest)
  }

  const PLAIN := Layout("", " ", " ", "")

  function Spread(l: Layout, metric: string, op: string, num: string): string {
    l.lead + (metric + (l.first + (op + (l.second + (num + l.rest)))))
  }

  /** Sscanf reads a metric, a word and a printed number through any blanks between them, and
      stops at the number. */
  lemma SpreadScans(l: Layout, metric: string, op: string, m: int, k: nat)
    requires Fits(l) && Word(metric) && Word(op)
    ensures Scan(Spread(l, metric, op, NumberText(m, k))) == Some((metric, op, m as real / Pow10(k) as real))
  {
    var num := NumberText(m, k);
    NumberTextShape(m, k);
    NumberReadsBack(m, k, l.rest);
    var tail := num + l.rest;
    assert tail[0] == num[0];
    assert "" + (op + (l.second + tail)) == op + (l.second + tail);
    WordBetweenBlanks("", op, l.second, tail);
    assert (op + (l.second + tail))[0] == op[0];
    WordBetweenBlanks(l.lead, metric, l.first, op + (l.second + tail));
  }

  lemma BytesJoin(x: string, y: string)
    requires Bytes(x) && Bytes(y)
    ensures Bytes(x + y)
  {
  }

  lemma SpreadIsBytes(l: Layout, metric: string, op: string, m: int, k: nat)
    requires Fits(l) && Bytes(metric) && Bytes(op)
    ensures Bytes(Spread(l, metric, op, NumberText(m, k)))
  {
    NumberTextShape(m, k);
    BytesJoin(NumberText(m, k), l.rest);
    BytesJoin(l.second, NumberText(m, k) + l.rest);
    BytesJoin(op, l.second + (NumberText(m, k) + l.rest));
    BytesJoin(l.first, op + (l.second + (NumberText(m, k) + l.rest)));
    BytesJoin(metric, l.first + (op + (l.second + (NumberText(m, k) + l.rest))));
    BytesJoin(l.lead, metric + (l.first + (op + (l.second + (NumberText(m, k) + l.rest)))));
  }

  lemma ScannedTerm(t: string, a: Atom, v: Values)
    requires Bytes(t) && Scan(t) == Some((a.metric, OpText(a.op), Number(a)))
    ensures Cmp(Encoded(t), v) == True(Reencoded(a), v)
  {
    DecodeEncoded(t);
    CompareIsTrue(Reencoded(a), v);
  }

  /** A term, however spread out and whatever follows it, is read as itself with its metric
      re-encoded, once splitOR has copied it. */
  lemma SpreadTermReadsBack(l: Layout, a: Atom, v: Values)
    requires Fits(l) && Valid(a)
    ensures Cmp(Encoded(Spread(l, a.metric, OpText(a.op), NumberText(a.mantissa, a.scale))), v)
         == True(Reencoded(a), v)
  {
    SpreadIsBytes(l, a.metric, OpText(a.op), a.mantissa, a.scale);
    SpreadScans(l, a.metric, OpText(a.op), a.mantissa, a.scale);
    ScannedTerm(Spread(l, a.metric, OpText(a.op), NumberText(a.mantissa, a.scale)), a, v);
  }

  /** A line end between metric and operator makes the scan fail. */
  lemma LineEndIsFalse(metric: string, rest: string, v: Values)
    requires Word(metric) && Bytes(metric) && Bytes(rest)
    ensures !Cmp(Encoded(metric + ("\n" + rest)), v)
  {
    var t := metric + ("\n" + rest);
    BytesJoin("\n", rest);
    BytesJoin(metric, "\n" + rest);
    DecodeEncoded(t);
    TakeWordStops(metric, "\n" + rest);
    assert t[0] == metric[0] && SkipSpace(t) == Some(t);
    assert ScanWord(t) == Some((metric, "\n" + rest)) && FormatBlank("\n" + rest) == None;
  }

  /** A term whose operator is none of the five is never true. */
  lemma OtherOperatorsAreFalse(l: Layout, metric: string, op: string, m: int, k: nat, v: Values)
    requires Fits(l) && Word(metric) && Bytes(metric) && Word(op) && Bytes(op)
    requires op != "<" && op != "<=" && op != ">" && op != ">=" && op != "=="
    ensures !Cmp(Encoded(Spread(l, metric, op, NumberText(m, k))), v)
  {
    SpreadIsBytes(l, metric, op, m, k);
    DecodeEncoded(Spread(l, metric, op, NumberText(m, k)));
    SpreadScans(l, metric, op, m, k);
  }

  lemma PlainLayout(metric: string, op: string, num: string)
    ensures Spread(PLAIN, metric, op, num) == metric + " " + op + " " + num
  {
    assert num + "" == num;
    assert metric + (" " + (op + (" " + num))) == metric + " " + op + " " + num;
  }

  /** A printed term is read as itself with its metric re-encoded. */
  lemma TermReadsBack(a: Atom, v: Values)
    requires Valid(a)
    ensures Cmp(Encoded(AtomText(a)), v) == True(Reencoded(a), v)
  {
    PlainLayout(a.metric, OpText(a.op), NumberText(a.mantissa, a.scale));
    SpreadTermReadsBack(PLAIN, a, v);
  }

  /** No separator begins inside the text, even when one follows it. */
  ghost predicate Clean(s: string) { forall i: nat :: i < |s| ==> !SepAt(s + SEP, i) }

  lemma TermIsClean(a: Atom)
    requires Valid(a)
    ensures Clean(AtomText(a)) && AtomText(a) != ""
  {
    var num, op := NumberText(a.mantissa, a.scale), OpText(a.op);
    NumberTextShape(a.mantissa, a.scale);
    var t := AtomText(a);
    var p, q := |a.metric|, |a.metric| + 1 + |op|;
    assert forall i :: 0 <= i < p ==> t[i] == a.metric[i];
    assert t[p] == ' ' && t[p + 1] == op[0];
    assert forall i :: p < i < q ==> t[i] == op[i - p - 1];
    assert t[q] == ' ' && t[q + 1] == num[0];
    assert forall i :: q < i < |t| ==> t[i] == num[i - q - 1];
    forall i: nat | i < |t|
      ensures !SepAt(t + SEP, i)
    {
      assert (t + SEP)[i] == t[i];
      if i == p || i == q {
        assert (t + SEP)[i + 1] == t[i + 1];
      } else {
        assert t[i] != ' ';
      }
    }
  }

  lemma {:induction false} CleanPieceSplitsOff(p: string, rest: string)
    requires Clean(p)
    ensures Pieces(p + SEP + rest) == [Encoded(p)] + Pieces(rest)
  {
    var s := p + SEP + rest;
    if p == "" {
      assert s == SEP + rest && s[4..] == rest;
    } else {
      var q := p[1..];
      CleanTail(p);
      assert forall i :: 0 <= i < |p + SEP| ==> s[i] == (p + SEP)[i];
      CleanPieceSplitsOff(q, rest);
      assert s[1..] == q + SEP + rest;
    }
  }

  lemma CleanTail(p: string)
    requires Clean(p) && p != ""
    ensures Clean(p[1..]) && !SepAt(p + SEP, 0)
  {
    forall i: nat | i < |p[1..]|
      ensures !SepAt(p[1..] + SEP, i)
    {
      assert !SepAt(p + SEP, i + 1);
      assert (p + SEP)[1..] == p[1..] + SEP;
    }
  }

  lemma {:induction false} CleanTextIsOnePiece(p: string)
    requires Clean(p)
    ensures Pieces(p) == [Encoded(p)]
  {
    if p != "" {
      CleanTail(p);
      assert forall i :: 0 <= i < |p| ==> (p + SEP)[i] == p[i];
      CleanTextIsOnePiece(p[1..]);
    }
  }

  /** A text without a capital O has no separator. */
  lemma NoOIsClean(p: string)
    requires 'O' !in p
    ensures Clean(p)
  {
    forall i: nat | i < |p|
      ensures !SepAt(p + SEP, i)
    {
      assert i + 1 < |p| ==> (p + SEP)[i + 1] == p[i + 1];
      assert i + 1 == |p| ==> (p + SEP)[i + 1] == ' ';
    }
  }

  /** A text without a separator is true exactly when it compares as one term. */
  lemma CleanTextHolds(p: string, v: Values)
    requires Clean(p) && p != ""
    ensures Holds(p, v) <==> Cmp(Encoded(p), v)
  {
    CleanTextIsOnePiece(p);
    EncodedLength(p);
    assert Split(p) == [Encoded(p)];
    assert [Encoded(p)][0] == Encoded(p);
  }

  function EncodedAll(ps: seq<string>): (es: seq<string>)
    ensures |es| == |ps| && forall i :: 0 <= i < |es| ==> es[i] == Encoded(ps[i])
  {
    seq(|ps|, i requires 0 <= i < |ps| => Encoded(ps[i]))
  }

  /** Splitting a joined list of clean texts gives the list back, each text re-encoded. */
  lemma {:induction false} JoinedSplits(ps: seq<string>)
    requires ps != [] && forall i :: 0 <= i < |ps| ==> Clean(ps[i])
    ensures Pieces(Join(ps)) == EncodedAll(ps)
  {
    if |ps| == 1 {
      CleanTextIsOnePiece(ps[0]);
    } else {
      JoinedSplits(ps[1..]);
      CleanPieceSplitsOff(ps[0], Join(ps[1..]));
      assert EncodedAll(ps) == [Encoded(ps[0])] + EncodedAll(ps[1..]);
    }
  }

  /** What a printed condition means, whatever the metrics: the text of a list of terms is true
      exactly when some term, its metric re-encoded, is; the empty list is true. */
  lemma PrintedConditionMeans(atoms: seq<Atom>, v: Values)
    requires forall i :: 0 <= i < |atoms| ==> Valid(atoms[i])
    ensures atoms != [] ==> Split(Join(Texts(atoms))) == EncodedAll(Texts(atoms))
    ensures Holds(Join(Texts(atoms)), v)
       <==> atoms == [] || exists i :: 0 <= i < |atoms| && True(Reencoded(atoms[i]), v)
  {
    var ts := Texts(atoms);
    if atoms != [] {
      forall i | 0 <= i < |ts|
        ensures Clean(ts[i]) && Encoded(ts[i]) != "" && Cmp(Encoded(ts[i]), v) == True(Reencoded(atoms[i]), v)
      {
        TermIsClean(atoms[i]);
        TermReadsBack(atoms[i], v);
        EncodedKeepsExactlyAscii(ts[i]);
      }
      JoinedSplits(ts);
      assert Join(ts) != "" by {
        assert Pieces("") == [""];
      }
      assert Split(Join(ts)) == EncodedAll(ts);
    }
  }

  /** Printing keeps meaning when the metrics are ASCII. */
  lemma PrintedConditionKeepsMeaning(atoms: seq<Atom>, v: Values)
    requires forall i :: 0 <= i < |atoms| ==> Valid(atoms[i]) && Ascii(atoms[i].metric)
    ensures Holds(Join(Texts(atoms)), v) <==> atoms == [] || exists i :: 0 <= i < |atoms| && True(atoms[i], v)
  {
    PrintedConditionMeans(atoms, v);
    forall i | 0 <= i < |atoms|
      ensures Reencoded(atoms[i]) == atoms[i]
    {
      EncodedKeepsExactlyAscii(atoms[i].metric);
    }
  }

  /** A value that makes a term true, or one that makes it false. */
  function Sample(op: Op, num: real, truth: bool): real {
    match op
    case Lt => if truth then num - 1.0 else num
    case Le => if truth then num else num + 1.0
    case Gt => if truth then num + 1.0 else num
    case Ge => if truth then num else num - 1.0
    case Eq => if truth then num else num + 1.0
  }

  /** ... and only then: for all values, a printed term means the term if and only if its metric
      is ASCII. */
  lemma PrintedTermKeepsMeaningExactlyWhen(a: Atom)
    requires Valid(a)
    ensures (forall v: Values :: Holds(AtomText(a), v) <==> True(a, v)) <==> Ascii(a.metric)
  {
    EncodedKeepsExactlyAscii(a.metric);
    forall v: Values
      ensures Holds(AtomText(a), v) <==> True(Reencoded(a), v)
    {
      PrintedConditionMeans([a], v);
      assert Texts([a]) == [AtomText(a)] && Join([AtomText(a)]) == AtomText(a) && [a][0] == a;
    }
    if !Ascii(a.metric) {
      var v := map[Encoded(a.metric) := Sample(a.op, Number(a), true), a.metric := Sample(a.op, Number(a), false)];
      assert True(Reencoded(a), v) && !True(a, v);
    }
  }
}
