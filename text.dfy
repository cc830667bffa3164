/** The string operations the pipeline's Python code relies on: `str.strip()`, `in`, `str.find`,
    `str.split(c)`, `c.join(...)`, the regex classes `\s` and `\d`, and `str(n)` on a
    non-negative int. Strings are sequences of Unicode scalar values, as Python's `str` is. */
module Text {

  /** Python's `str.isspace()`: the characters `str.strip()` removes and the regex class `\s`
      matches in a `str` pattern. */
  predicate IsSpace(c: char) {
    c == ' ' || c == '\t' || c == '\n' || c == '\r' || c == '\U{B}' || c == '\U{C}'
    || ('\U{1C}' <= c <= '\U{1F}') || c == '\U{85}' || c == '\U{A0}' || c == '\U{1680}'
    || ('\U{2000}' <= c <= '\U{200A}') || c == '\U{2028}' || c == '\U{2029}'
    || c == '\U{202F}' || c == '\U{205F}' || c == '\U{3000}'
  }

  /** The regex class `\d`, restricted to ASCII digits. */
  predicate IsDigit(c: char) {
    '0' <= c <= '9'
  }

  /** No character is both whitespace and a digit. */
  lemma DigitNotSpace(c: char)
    requires IsDigit(c)
    ensures !IsSpace(c)
  {
  }

  predicate AllSpace(s: string) {
    forall k :: 0 <= k < |s| ==> IsSpace(s[k])
  }

  /** Neither end of `s` is whitespace: what `str.strip()` returns. */
  predicate IsStripped(s: string) {
    s == [] || (!IsSpace(s[0]) && !IsSpace(s[|s| - 1]))
  }

  function TrimStart(s: string): (r: string)
    ensures |r| <= |s|
    ensures r == [] || !IsSpace(r[0])
  {
    if s == [] || !IsSpace(s[0]) then s else TrimStart(s[1..])
  }

  function TrimEnd(s: string): (r: string)
    ensures |r| <= |s|
    ensures r == [] || !IsSpace(r[|r| - 1])
  {
    if s == [] || !IsSpace(s[|s| - 1]) then s else TrimEnd(s[..|s| - 1])
  }

  /** `TrimStart` removes a whitespace prefix and keeps the rest. */
  lemma {:induction false} TrimStartSuffix(s: string)
    ensures TrimStart(s) == s[|s| - |TrimStart(s)|..]
    ensures AllSpace(s[..|s| - |TrimStart(s)|])
  {
    if s != [] && IsSpace(s[0]) {
      TrimStartSuffix(s[1..]);
      var n := |s| - |TrimStart(s)|;
      assert s[1..][..n - 1] == s[1..n];
    }
  }

  /** `TrimEnd` removes a whitespace suffix and keeps the rest. */
  lemma {:induction false} TrimEndPrefix(s: string)
    ensures TrimEnd(s) == s[..|TrimEnd(s)|]
    ensures AllSpace(s[|TrimEnd(s)|..])
  {
    if s != [] && IsSpace(s[|s| - 1]) {
      TrimEndPrefix(s[..|s| - 1]);
      var n := |TrimEnd(s)|;
      assert s[..|s| - 1][n..] == s[n..|s| - 1];
    }
  }

  /** Python's `str.strip()`. */
  function Strip(s: string): (r: string)
    ensures IsStripped(r) && |r| <= |s|
  {
    var t := TrimStart(s);
    TrimEndPrefix(t);
    TrimEnd(t)
  }

  /** What `str.strip()` returns is a slice of its argument with only whitespace around it. */
  lemma StripSlice(s: string) returns (i: nat)
    ensures i + |Strip(s)| <= |s| && s[i..i + |Strip(s)|] == Strip(s)
    ensures AllSpace(s[..i]) && AllSpace(s[i + |Strip(s)|..])
  {
    var t := TrimStart(s);
    TrimStartSuffix(s);
    TrimEndPrefix(t);
    var r := TrimEnd(t);
    i := |s| - |t|;
    assert s[i..i + |r|] == r;
    assert s[i + |r|..] == t[|r|..];
  }

  lemma {:induction false} TrimStartSpaces(a: string, t: string)
    requires AllSpace(a) && (t == [] || !IsSpace(t[0]))
    ensures TrimStart(a + t) == t
  {
    if a != [] {
      assert (a + t)[1..] == a[1..] + t;
      TrimStartSpaces(a[1..], t);
    }
  }

  lemma {:induction false} TrimEndSpaces(t: string, c: string)
    requires AllSpace(c) && (t == [] || !IsSpace(t[|t| - 1]))
    ensures TrimEnd(t + c) == t
  {
    if c != [] {
      assert (t + c)[..|t + c| - 1] == t + c[..|c| - 1];
      TrimEndSpaces(t, c[..|c| - 1]);
    }
  }

  /** `str.strip()` is determined by what it removes: whitespace around a stripped core. */
  lemma StripAround(a: string, b: string, c: string)
    requires AllSpace(a) && AllSpace(c) && IsStripped(b)
    ensures Strip(a + b + c) == b
  {
    if b == [] {
      assert a + b + c == a + c + [];
      TrimStartSpaces(a + c, []);
    } else {
      assert a + b + c == a + (b + c);
      TrimStartSpaces(a, b + c);
      TrimEndSpaces(b, c);
    }
  }

  lemma StripOfStripped(s: string)
    requires IsStripped(s)
    ensures Strip(s) == s
  {
    StripAround([], s, []);
    assert [] + s + [] == s;
  }

  /** Python's `s.startswith(prefix)`. */
  predicate StartsWith(s: string, prefix: string) {
    |prefix| <= |s| && s[..|prefix|] == prefix
  }

  /** `sub` occurs in `s` starting at index `i`. */
  predicate OccursAt(s: string, sub: string, i: int) {
    0 <= i && i + |sub| <= |s| && s[i..i + |sub|] == sub
  }

  /** Python's `sub in s`. */
  predicate Contains(s: string, sub: string)
    ensures Contains(s, sub) <==> exists i :: OccursAt(s, sub, i)
  {
    FindFrom(s, sub, 0) >= 0
  }

  function FindFrom(s: string, sub: string, i: nat): (r: int)
    requires i <= |s|
    ensures r == -1 || (i <= r && OccursAt(s, sub, r))
    ensures r == -1 ==> forall j :: i <= j ==> !OccursAt(s, sub, j)
    ensures r >= 0 ==> forall j :: i <= j < r ==> !OccursAt(s, sub, j)
    decreases |s| - i
  {
    if OccursAt(s, sub, i) then i
    else if i == |s| then -1
    else FindFrom(s, sub, i + 1)
  }

  /** Python's `s.find(sub)`: the first index at which `sub` occurs, or -1. */
  function Find(s: string, sub: string): (r: int)
    ensures r >= 0 <==> Contains(s, sub)
    ensures r >= 0 ==> OccursAt(s, sub, r) && forall j :: 0 <= j < r ==> !OccursAt(s, sub, j)
    ensures r < 0 ==> r == -1
  {
    FindFrom(s, sub, 0)
  }

  /** An occurrence inside a slice is an occurrence in the whole string. */
  lemma ContainsInSlice(s: string, lo: int, hi: int, sub: string)
    requires 0 <= lo <= hi <= |s|
    requires Contains(s[lo..hi], sub)
    ensures Contains(s, sub)
  {
    var t := s[lo..hi];
    var i :| OccursAt(t, sub, i);
    var u := s[lo + i..lo + i + |sub|];
    assert forall k :: 0 <= k < |u| ==> u[k] == t[i + k] == sub[k];
    assert u == sub;
    assert OccursAt(s, sub, lo + i);
  }

  /** Python's `s.split(c)` for a one-character separator: never empty, and no piece holds `c`. */
  function SplitOn(s: string, c: char): (r: seq<string>)
    ensures |r| >= 1
    ensures forall k :: 0 <= k < |r| ==> c !in r[k]
  {
    if s == [] then [""]
    else if s[0] == c then [""] + SplitOn(s[1..], c)
    else
      var rest := SplitOn(s[1..], c);
      [[s[0]] + rest[0]] + rest[1..]
  }

  /** Python's `sep.join(pieces)`. */
  function Join(pieces: seq<string>, sep: string): string {
    if |pieces| == 0 then ""
    else if |pieces| == 1 then pieces[0]
    else pieces[0] + sep + Join(pieces[1..], sep)
  }

  /** Joining non-empty pieces that avoid `c` with a separator that avoids `c` gives a text
      that avoids `c`, opens with the first piece, closes with the last, and holds every piece
      and every separator between them. */
  lemma {:induction false} JoinBounds(pieces: seq<string>, sep: string, c: char)
    requires |pieces| >= 1 && c !in sep
    requires forall k :: 0 <= k < |pieces| ==> pieces[k] != "" && c !in pieces[k]
    ensures var j, first, last := Join(pieces, sep), pieces[0], pieces[|pieces| - 1];
      c !in j && |j| >= |pieces| + (|pieces| - 1) * |sep|
      && |first| <= |j| && j[..|first|] == first && |last| <= |j| && j[|j| - |last|..] == last
  {
    if |pieces| > 1 {
      var rest := pieces[1..];
      JoinBounds(rest, sep, c);
      var t := Join(rest, sep);
      var j := Join(pieces, sep);
      assert j == pieces[0] + sep + t;
      assert rest[|rest| - 1] == pieces[|pieces| - 1];
      assert j[|j| - |pieces[|pieces| - 1]|..] == t[|t| - |pieces[|pieces| - 1]|..];
    }
  }

  /** Splitting at `c` loses nothing: joining the pieces with `c` gives the text back. */
  lemma {:induction false} JoinSplitOn(s: string, c: char)
    ensures Join(SplitOn(s, c), [c]) == s
  {
    if s == [] {
    } else if s[0] == c {
      JoinSplitOn(s[1..], c);
      assert s == [c] + s[1..];
    } else {
      var rest := SplitOn(s[1..], c);
      JoinSplitOn(s[1..], c);
      if |rest| == 1 {
        assert s == [s[0]] + rest[0];
      } else {
        assert rest == [rest[0]] + rest[1..];
        assert Join(rest, [c]) == rest[0] + [c] + Join(rest[1..], [c]);
        assert s == [s[0]] + s[1..];
      }
    }
  }

  lemma {:induction false} SplitOnFree(a: string, c: char)
    requires c !in a
    ensures SplitOn(a, c) == [a]
  {
    if a != [] {
      SplitOnFree(a[1..], c);
      assert a == [a[0]] + a[1..];
    }
  }

  lemma {:induction false} SplitOnCut(a: string, b: string, c: char)
    requires c !in a
    ensures SplitOn(a + [c] + b, c) == [a] + SplitOn(b, c)
  {
    if a == [] {
      assert a + [c] + b == [c] + b;
      assert ([c] + b)[1..] == b;
    } else {
      SplitOnCut(a[1..], b, c);
      assert (a + [c] + b)[1..] == a[1..] + [c] + b;
      assert a == [a[0]] + a[1..];
    }
  }

  /** Joining pieces that do not hold `c` and splitting again gives the pieces back. */
  lemma {:induction false} SplitOnJoin(pieces: seq<string>, c: char)
    requires |pieces| >= 1
    requires forall k :: 0 <= k < |pieces| ==> c !in pieces[k]
    ensures SplitOn(Join(pieces, [c]), c) == pieces
  {
    if |pieces| == 1 {
      SplitOnFree(pieces[0], c);
    } else {
      SplitOnJoin(pieces[1..], c);
      SplitOnCut(pieces[0], Join(pieces[1..], [c]), c);
      assert pieces == [pieces[0]] + pieces[1..];
    }
  }

  /** The pieces written one after another (`"".join(pieces)`). */
  function Concat(pieces: seq<string>): string {
    if pieces == [] then "" else pieces[0] + Concat(pieces[1..])
  }

  /** Each line followed by a newline. */
  function Terminated(lines: seq<string>): string {
    if lines == [] then "" else lines[0] + "\n" + Terminated(lines[1..])
  }

  /** The complete lines of `s`: every piece of `s.split("\n")` except the last, which is
      the text after the last newline. */
  function CompleteLines(s: string): (r: seq<string>)
    ensures |r| == |SplitOn(s, '\n')| - 1
  {
    var pieces := SplitOn(s, '\n');
    pieces[..|pieces| - 1]
  }

  /** The text after the last newline of `s`. */
  function PartialLine(s: string): (r: string)
    ensures '\n' !in r
  {
    var pieces := SplitOn(s, '\n');
    pieces[|pieces| - 1]
  }

  /** Newline-terminated lines in front of `t` split off unchanged. */
  lemma {:induction false} SplitOnTerminated(lines: seq<string>, t: string)
    requires forall k :: 0 <= k < |lines| ==> '\n' !in lines[k]
    ensures SplitOn(Terminated(lines) + t, '\n') == lines + SplitOn(t, '\n')
  {
    if lines != [] {
      var rest := Terminated(lines[1..]) + t;
      calc {
        SplitOn(Terminated(lines) + t, '\n');
        { assert Terminated(lines) + t == lines[0] + ['\n'] + rest; }
        SplitOn(lines[0] + ['\n'] + rest, '\n');
        { SplitOnCut(lines[0], rest, '\n'); }
        [lines[0]] + SplitOn(rest, '\n');
        { SplitOnTerminated(lines[1..], t); }
        [lines[0]] + (lines[1..] + SplitOn(t, '\n'));
        { assert [lines[0]] + lines[1..] == lines; }
        lines + SplitOn(t, '\n');
      }
    } else {
      assert Terminated(lines) + t == t;
    }
  }

  /** A text is its complete lines, each with its newline, followed by the partial line. */
  lemma {:induction false} TerminatedPieces(pieces: seq<string>)
    requires |pieces| >= 1
    ensures Join(pieces, "\n") == Terminated(pieces[..|pieces| - 1]) + pieces[|pieces| - 1]
  {
    if |pieces| > 1 {
      TerminatedPieces(pieces[1..]);
      assert pieces[1..][..|pieces| - 2] == pieces[..|pieces| - 1][1..];
    }
  }

  /** Every text frames as its complete lines, each followed by a newline, then the partial
      line, which holds no newline. */
  lemma SplitFrames(s: string)
    ensures s == Terminated(CompleteLines(s)) + PartialLine(s)
    ensures forall k :: 0 <= k < |CompleteLines(s)| ==> '\n' !in CompleteLines(s)[k]
  {
    JoinSplitOn(s, '\n');
    TerminatedPieces(SplitOn(s, '\n'));
  }

  lemma {:induction false} TerminatedAppend(a: seq<string>, b: seq<string>)
    ensures Terminated(a + b) == Terminated(a) + Terminated(b)
  {
    if a == [] {
      assert a + b == b;
    } else {
      calc {
        Terminated(a + b);
        { assert (a + b)[0] == a[0] && (a + b)[1..] == a[1..] + b; }
        a[0] + "\n" + Terminated(a[1..] + b);
        { TerminatedAppend(a[1..], b); }
        a[0] + "\n" + (Terminated(a[1..]) + Terminated(b));
        (a[0] + "\n" + Terminated(a[1..])) + Terminated(b);
      }
    }
  }

  function DigitChar(d: nat): (c: char)
    requires d < 10
    ensures IsDigit(c) && c as int - '0' as int == d
  {
    ('0' as int + d) as char
  }

  /** Python's `str(n)` for a non-negative int, as it appears inside f-strings. */
  function NatToString(n: nat): (r: string)
    ensures |r| >= 1 && forall k :: 0 <= k < |r| ==> IsDigit(r[k])
  {
    if n < 10 then [DigitChar(n)] else NatToString(n / 10) + [DigitChar(n % 10)]
  }

  function DigitsValue(s: string): int
    requires forall k :: 0 <= k < |s| ==> IsDigit(s[k])
  {
    if s == [] then 0 else 10 * DigitsValue(s[..|s| - 1]) + (s[|s| - 1] as int - '0' as int)
  }

  /** The decimal rendering reads back as the same number. */
  lemma {:induction false} NatToStringValue(n: nat)
    ensures DigitsValue(NatToString(n)) == n
  {
    if n >= 10 {
      NatToStringValue(n / 10);
      var r := NatToString(n);
      assert r[..|r| - 1] == NatToString(n / 10);
      assert r[|r| - 1] as int - '0' as int == n % 10;
      assert n == 10 * (n / 10) + n % 10;
    }
  }

  /** Lines already terminated come out of the framing unchanged, ahead of whatever complete
      lines the rest holds. */
  lemma CompleteLinesAfter(lines: seq<string>, t: string)
    requires forall k :: 0 <= k < |lines| ==> '\n' !in lines[k]
    ensures CompleteLines(Terminated(lines) + t) == lines + CompleteLines(t)
  {
    var tail := SplitOn(t, '\n');
    assert SplitOn(Terminated(lines) + t, '\n') == lines + tail by {
      SplitOnTerminated(lines, t);
    }
    DropLast(lines, tail);
  }

  lemma DropLast(a: seq<string>, b: seq<string>)
    requires |b| >= 1
    ensures (a + b)[..|a + b| - 1] == a + b[..|b| - 1]
  {
  }

  /** A text without a newline holds no complete line. */
  lemma NoCompleteLine(t: string)
    requires '\n' !in t
    ensures CompleteLines(t) == [] && PartialLine(t) == t
  {
    SplitOnFree(t, '\n');
  }

  /** Each piece sits inside the joined text. */
  lemma {:induction false} PieceInJoin(pieces: seq<string>, sep: string, k: nat) returns (lo: nat)
    requires k < |pieces|
    ensures lo + |pieces[k]| <= |Join(pieces, sep)| && Join(pieces, sep)[lo..lo + |pieces[k]|] == pieces[k]
  {
    var j := Join(pieces, sep);
    if |pieces| == 1 {
      lo := 0;
    } else if k == 0 {
      lo := 0;
      assert j == pieces[0] + sep + Join(pieces[1..], sep);
    } else {
      var tail := Join(pieces[1..], sep);
      var inner := PieceInJoin(pieces[1..], sep, k - 1);
      assert pieces[1..][k - 1] == pieces[k];
      lo := |pieces[0]| + |sep| + inner;
      assert j == pieces[0] + sep + tail;
      assert j[lo..lo + |pieces[k]|] == tail[inner..inner + |pieces[k]|];
    }
  }

  /** Whatever occurs in a piece occurs in the joined text. */
  lemma ContainsInJoin(pieces: seq<string>, sep: string, k: nat, sub: string)
    requires k < |pieces| && Contains(pieces[k], sub)
    ensures Contains(Join(pieces, sep), sub)
  {
    var lo := PieceInJoin(pieces, sep, k);
    ContainsInSlice(Join(pieces, sep), lo, lo + |pieces[k]|, sub);
  }

  /** A text without the separator occurs in the joined text only inside one piece. */
  lemma {:induction false} JoinAvoids(pieces: seq<string>, c: char, sub: string)
    requires sub != [] && c !in sub
    requires forall k :: 0 <= k < |pieces| ==> !Contains(pieces[k], sub)
    ensures !Contains(Join(pieces, [c]), sub)
  {
    if |pieces| >= 2 {
      var a := pieces[0];
      var t := Join(pieces[1..], [c]);
      JoinAvoids(pieces[1..], c, sub);
      var j := Join(pieces, [c]);
      assert j == a + [c] + t;
      forall i ensures !OccursAt(j, sub, i) {
        if 0 <= i && i + |sub| <= |j| {
          if i + |sub| <= |a| {
            assert j[i..i + |sub|] == a[i..i + |sub|];
            assert !OccursAt(a, sub, i);
          } else if i <= |a| {
            assert j[i..i + |sub|][|a| - i] == c;
          } else {
            assert j[i..i + |sub|] == t[i - |a| - 1..i - |a| - 1 + |sub|];
            assert !OccursAt(t, sub, i - |a| - 1);
          }
        }
      }
    }
  }
}
