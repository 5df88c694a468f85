/** The log ring of internal/logbuf/logbuf.go: a slice of fixed capacity, shifted in place when
    full, that shows the last lines of an unbounded history. The formatted time of a line is a
    parameter. */
module LogRing {

  predicate LineEnd(c: char) { c == '\n' || c == '\r' }

  /** The text without its trailing line ends. */
  function Trim(s: string): (t: string)
    ensures t <= s && (t != "" ==> !LineEnd(t[|t| - 1]))
    ensures forall i :: |t| <= i < |s| ==> LineEnd(s[i])
  {
    if s != "" && LineEnd(s[|s| - 1]) then Trim(s[..|s| - 1]) else s
  }

  /** The lines an append adds to the history: none when nothing is left after trimming. */
  function Logged(stamp: string, s: string): seq<string> {
    if Trim(s) == "" then [] else [stamp + "Z " + Trim(s)]
  }

  /** The last n entries, or all. */
  function Last(xs: seq<string>, n: nat): seq<string> {
    if |xs| <= n then xs else xs[|xs| - n..]
  }

  /** One more entry: the window grows until it is full and then slides. */
  lemma LastSnoc(xs: seq<string>, x: string, n: nat)
    requires n > 0
    ensures |Last(xs, n)| == if |xs| < n then |xs| else n
    ensures Last(xs + [x], n) == if |xs| < n then Last(xs, n) + [x] else Last(xs, n)[1..] + [x]
  {
  }

  method TrimEnd(s: string) returns (t: string)
    ensures t == Trim(s)
  {
    t := s;
    while |t| > 0 && LineEnd(t[|t| - 1])
      invariant Trim(t) == Trim(s)
    {
      t := t[..|t| - 1];
    }
  }

  class Ring {
    var buf: array<string>
    var len: nat
    const cap: nat
    ghost var history: seq<string>

    ghost predicate Valid()
      reads this, buf
    {
      && cap >= 32 && buf.Length == cap && len <= cap
      && buf[..len] == Last(history, cap)
    }

    constructor (capacity: int)
      ensures Valid() && history == [] && fresh(buf)
      ensures cap == if capacity < 32 then 32 else capacity
    {
      cap := if capacity < 32 then 32 else capacity;
      buf := new string[if capacity < 32 then 32 else capacity];
      len := 0;
      history := [];
    }

    method Append(s: string, stamp: string)
      requires Valid()
      modifies this, buf
      ensures Valid() && buf == old(buf)
      ensures history == old(history) + Logged(stamp, s)
    {
      if s == "" {
        return;
      }
      var t := TrimEnd(s);
      if t == "" {
        return;
      }
      Store(stamp + "Z " + t);
    }

    method Store(line: string)
      requires Valid()
      modifies this, buf
      ensures Valid() && buf == old(buf)
      ensures history == old(history) + [line]
    {
      assert |buf[..len]| == len;
      LastSnoc(history, line, cap);
      history := history + [line];
      if len >= cap {
        Slide(line);
      } else {
        Grow(line);
      }
    }

    method Slide(line: string)
      requires 0 < len <= buf.Length
      modifies buf
      ensures buf[..len] == old(buf[..len])[1..] + [line]
    {
      ShiftLeft();
      buf[len - 1] := line;
      assert buf[..len] == buf[..len - 1] + [line];
      assert old(buf[1..len]) == old(buf[..len])[1..];
    }

    method Grow(line: string)
      requires len < buf.Length
      modifies this`len, buf
      ensures len == old(len) + 1
      ensures buf[..len] == old(buf[..len]) + [line]
    {
      buf[len] := line;
      len := len + 1;
    }

    /** copy(r.lines, r.lines[1:]) */
    method ShiftLeft()
      requires 0 < len <= buf.Length
      modifies buf
      ensures buf[..len - 1] == old(buf[1..len])
    {
      ghost var was := buf[..];
      var i := 0;
      while i < len - 1
        invariant 0 <= i <= len - 1
        invariant forall k :: 0 <= k < i ==> buf[k] == was[k + 1]
        invariant forall k :: i <= k < buf.Length ==> buf[k] == was[k]
      {
        buf[i] := buf[i + 1];
        i := i + 1;
      }
      assert old(buf[1..len]) == was[1..len];
    }

    /** The last n lines of the history that are still held, all of them when n is not
        positive or too large; the result is a copy. */
    method Lines(n: int) returns (out: array<string>)
      requires Valid()
      ensures fresh(out)
      ensures out[..] == if n <= 0 then Last(history, cap) else Last(Last(history, cap), n)
    {
      var m := if n <= 0 || n > len then len else n;
      out := new string[m];
      var base := len - m;
      ghost var held := buf[..len];
      for i := 0 to m
        invariant buf[..len] == held
        invariant forall k :: 0 <= k < i ==> out[k] == held[base + k]
      {
        out[i] := buf[base + i];
      }
      assert out[..] == held[base..];
    }
  }

  // ---- whole runs ----------------------------------------------------------------------

  datatype Write = Write(s: string, stamp: string)

  /** Everything a run of appends logs. */
  function History(ws: seq<Write>): seq<string> {
    if ws == [] then [] else History(ws[..|ws| - 1]) + Logged(ws[|ws| - 1].stamp, ws[|ws| - 1].s)
  }

  /** A run of appends on a new ring: the buffer holds the last min(cap, total) lines logged. */
  method Replay(ws: seq<Write>, capacity: int) returns (r: Ring)
    ensures fresh(r) && r.Valid() && r.history == History(ws)
    ensures r.len == if |History(ws)| < r.cap then |History(ws)| else r.cap
  {
    r := new Ring(capacity);
    for i := 0 to |ws|
      invariant fresh(r) && fresh(r.buf) && r.Valid() && r.history == History(ws[..i])
    {
      assert ws[..i + 1][..i] == ws[..i];
      r.Append(ws[i].s, ws[i].stamp);
    }
    assert ws[..|ws|] == ws;
    assert |r.buf[..r.len]| == r.len;
  }

  /** A line as it is logged: the stamp, a Z and a blank, and the text up to the line ends it
      ends in, of which there may be any number. */
  lemma {:induction false} LoggedLine(stamp: string, text: string, ends: string)
    requires text != "" && text[|text| - 1] != '\n' && text[|text| - 1] != '\r'
    requires forall i :: 0 <= i < |ends| ==> ends[i] == '\n' || ends[i] == '\r'
    ensures Logged(stamp, text + ends) == [stamp + "Z " + text]
    ensures Logged(stamp, ends) == []
  {
    if ends == "" {
      assert text + ends == text;
    } else {
      var n := |ends| - 1;
      LoggedLine(stamp, text, ends[..n]);
      assert (text + ends)[..|text + ends| - 1] == text + ends[..n];
    }
  }

  /** Trimming is the only way a line is dropped or changed: each stored line ends without a
      line end, and a text is skipped exactly when it is nothing but line ends. */
  lemma {:induction false} SkippedExactlyWhen(s: string, stamp: string)
    ensures Logged(stamp, s) == [] <==> forall i :: 0 <= i < |s| ==> LineEnd(s[i])
    ensures forall l :: l in Logged(stamp, s) ==> l != "" && !LineEnd(l[|l| - 1])
  {
    var t := Trim(s);
    if t != "" {
      assert t[|t| - 1] == s[|t| - 1];
    }
  }
}
