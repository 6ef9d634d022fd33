/** Text helpers: newline-terminated lines, Python's startswith/endswith,
    and Python's `str` of a non-negative integer. */
module Text {

  predicate StartsWith(s: string, prefix: string) {
    prefix <= s
  }

  predicate EndsWith(s: string, suffix: string) {
    |suffix| <= |s| && s[|s| - |suffix|..] == suffix
  }

  predicate NoNewline(s: string) {
    forall i :: 0 <= i < |s| ==> s[i] != '\n'
  }

  /** Membership form of `NoNewline`, cheaper to settle on literals. */
  lemma NewlineFree(s: string)
    requires '\n' !in s
    ensures NoNewline(s)
  {
    forall i | 0 <= i < |s| ensures s[i] != '\n' {
      assert s[i] in s;
    }
  }

  lemma NoNewlineConcat(a: string, b: string)
    requires NoNewline(a) && NoNewline(b)
    ensures NoNewline(a + b)
  {
    forall i | 0 <= i < |a + b| ensures (a + b)[i] != '\n' {
      if i < |a| { assert (a + b)[i] == a[i]; } else { assert (a + b)[i] == b[i - |a|]; }
    }
  }

  /** Texts that open with different prefixes of one length differ. */
  lemma PrefixesDiffer(a: string, b: string, x: string, y: string)
    requires |a| == |b| && a != b
    ensures a + x != b + y
  {
    assert (a + x)[..|a|] == a;
    assert (b + y)[..|b|] == b;
  }

  predicate NoNewlines(lines: seq<string>) {
    forall i :: 0 <= i < |lines| ==> NoNewline(lines[i])
  }

  /** The text that answers one prompt per line: every line followed by "\n". */
  function JoinLines(lines: seq<string>): string {
    if lines == [] then "" else lines[0] + "\n" + JoinLines(lines[1..])
  }

  /** Joining one, two or three lines. */
  lemma JoinFew(a: string, b: string, c: string)
    ensures JoinLines([a]) == a + "\n"
    ensures JoinLines([a, b]) == a + "\n" + b + "\n"
    ensures JoinLines([a, b, c]) == a + "\n" + b + "\n" + c + "\n"
  {
    assert [a, b][1..] == [b];
    assert [a, b, c][1..] == [b, c];
    assert [b, c][1..] == [c];
    assert [c][1..] == [];
    assert JoinLines([c]) == c + "\n";
    assert JoinLines([b, c]) == b + "\n" + (c + "\n");
    assert JoinLines([a, b, c]) == a + "\n" + (b + "\n" + (c + "\n"));
  }

  lemma EndsWithAppend(a: string, b: string)
    ensures EndsWith(a + b, b)
  {
    assert (a + b)[|a + b| - |b|..] == b;
  }

  /** Text joined from lines ending in `a`, `b` ends in `a` and `b` on lines
      of their own. */
  lemma JoinEndsWith(lines: seq<string>, a: string, b: string)
    requires |lines| >= 2 && lines[|lines| - 2] == a && lines[|lines| - 1] == b
    ensures EndsWith(JoinLines(lines), a + "\n" + b + "\n")
  {
    var body := lines[..|lines| - 2];
    assert lines == body + [a, b];
    JoinLinesAppend(body, [a, b]);
    JoinFew(a, b, "");
    EndsWithAppend(JoinLines(body), a + "\n" + b + "\n");
  }

  /** Index of the first newline of `s`, or `|s|` when there is none. */
  function FirstNewline(s: string): (i: nat)
    ensures i <= |s|
    ensures NoNewline(s[..i])
    ensures i < |s| ==> s[i] == '\n'
  {
    if s == [] then 0
    else if s[0] == '\n' then 0
    else 1 + FirstNewline(s[1..])
  }

  /** The lines a reader of `s` sees, one per newline; an unterminated tail is
      a last line of its own. */
  function SplitLines(s: string): seq<string>
    decreases |s|
  {
    if s == [] then []
    else
      var i := FirstNewline(s);
      if i == |s| then [s] else [s[..i]] + SplitLines(s[i + 1..])
  }

  /** The first newline of `l + "\n" + rest` is the one that ends `l`. */
  lemma FirstNewlineOfLine(l: string, rest: string)
    requires NoNewline(l)
    ensures FirstNewline(l + "\n" + rest) == |l|
  {
    var s := l + "\n" + rest;
    assert s[|l|] == '\n';
    assert forall j :: 0 <= j < |l| ==> s[j] == l[j];
  }

  /** Reading back the lines of a script gives the lines it was built from. */
  lemma {:induction false} SplitJoin(lines: seq<string>)
    requires NoNewlines(lines)
    ensures SplitLines(JoinLines(lines)) == lines
  {
    if lines != [] {
      var rest := JoinLines(lines[1..]);
      var s := lines[0] + "\n" + rest;
      assert NoNewline(lines[0]);
      FirstNewlineOfLine(lines[0], rest);
      assert s[..|lines[0]|] == lines[0];
      assert s[|lines[0]| + 1..] == rest;
      assert NoNewlines(lines[1..]) by {
        forall i | 0 <= i < |lines[1..]| ensures NoNewline(lines[1..][i]) {
          assert lines[1..][i] == lines[i + 1];
        }
      }
      SplitJoin(lines[1..]);
    }
  }

  /** Newline-terminated text splits into its first line and
      newline-terminated rest. */
  lemma SplitFirst(s: string) returns (i: nat)
    requires s != [] && s[|s| - 1] == '\n'
    ensures i < |s| && NoNewline(s[..i])
    ensures s == s[..i] + "\n" + s[i + 1..]
    ensures s[i + 1..] == [] || s[|s| - 1] == '\n'
    ensures SplitLines(s) == [s[..i]] + SplitLines(s[i + 1..])
  {
    i := FirstNewline(s);
  }

  /** Conversely, newline-terminated text is exactly the join of its lines. */
  lemma {:induction false} JoinSplit(s: string)
    requires s == [] || s[|s| - 1] == '\n'
    ensures JoinLines(SplitLines(s)) == s
    ensures NoNewlines(SplitLines(s))
    decreases |s|
  {
    if s != [] {
      var i := SplitFirst(s);
      var line, tail := s[..i], s[i + 1..];
      JoinSplit(tail);
      var ls := SplitLines(s);
      assert ls[0] == line && ls[1..] == SplitLines(tail);
      forall k | 0 <= k < |ls| ensures NoNewline(ls[k]) {
        if k > 0 {
          assert ls[k] == SplitLines(tail)[k - 1];
        }
      }
    }
  }

  /** Joining is a homomorphism from line sequences to text. */
  lemma {:induction false} JoinLinesAppend(a: seq<string>, b: seq<string>)
    ensures JoinLines(a + b) == JoinLines(a) + JoinLines(b)
  {
    if a != [] {
      assert (a + b)[0] == a[0];
      assert (a + b)[1..] == a[1..] + b;
      JoinLinesAppend(a[1..], b);
      calc {
        JoinLines(a + b);
        a[0] + "\n" + JoinLines(a[1..] + b);
        a[0] + "\n" + (JoinLines(a[1..]) + JoinLines(b));
        JoinLines(a) + JoinLines(b);
      }
    } else {
      assert a + b == b;
    }
  }

  lemma NoNewlinesAppend(a: seq<string>, b: seq<string>)
    requires NoNewlines(a) && NoNewlines(b)
    ensures NoNewlines(a + b)
  {
    forall i | 0 <= i < |a + b| ensures NoNewline((a + b)[i]) {
      if i < |a| { assert (a + b)[i] == a[i]; } else { assert (a + b)[i] == b[i - |a|]; }
    }
  }

  function DigitChar(d: nat): (c: char)
    requires d < 10
  {
    "0123456789"[d]
  }

  /** Python's `str(n)` for a non-negative integer: decimal digits, no
      leading zero. */
  function DecimalString(n: nat): (s: string)
    ensures 1 <= |s|
    ensures forall i :: 0 <= i < |s| ==> '0' <= s[i] <= '9'
    ensures |s| > 1 ==> s[0] != '0'
  {
    if n < 10 then [DigitChar(n)] else DecimalString(n / 10) + [DigitChar(n % 10)]
  }

  /** The value of a string of decimal digits. */
  function DecimalValue(s: string): nat
    requires forall i :: 0 <= i < |s| ==> '0' <= s[i] <= '9'
  {
    if s == [] then 0 else 10 * DecimalValue(s[..|s| - 1]) + (s[|s| - 1] as int - '0' as int)
  }

  /** Rendering then reading back a profile number gives the number. */
  lemma {:induction false} DecimalRoundTrip(n: nat)
    ensures DecimalValue(DecimalString(n)) == n
  {
    var s := DecimalString(n);
    if n < 10 {
      assert s[..|s| - 1] == [];
    } else {
      assert s[..|s| - 1] == DecimalString(n / 10);
      DecimalRoundTrip(n / 10);
    }
  }

  lemma DecimalNoNewline(n: nat)
    ensures NoNewline(DecimalString(n))
  {
  }
}
