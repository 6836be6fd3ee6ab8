// String helpers with the semantics of the Python built-ins the application
// relies on: str.isspace, str.strip, str.split(sep), sep.join(lines), and the
// decimal rendering of a non-negative int inside an f-string.

module Text {

  /** Python's str.isspace() for one character (the Unicode White_Space set
      plus the ASCII information separators that Python also treats as space). */
  predicate IsSpace(c: char) {
    ('\U{9}' <= c <= '\U{D}') || ('\U{1C}' <= c <= '\U{20}') || c == '\U{85}' || c == '\U{A0}'
    || c == '\U{1680}' || ('\U{2000}' <= c <= '\U{200A}') || c == '\U{2028}' || c == '\U{2029}'
    || c == '\U{202F}' || c == '\U{205F}' || c == '\U{3000}'
  }

  /** A string with no surrounding white space: what str.strip() leaves. */
  predicate Stripped(s: string) {
    s == [] || (!IsSpace(s[0]) && !IsSpace(s[|s| - 1]))
  }

  /** True when the string holds only white space (str.strip() of it is empty). */
  predicate IsBlank(s: string) {
    forall i :: 0 <= i < |s| ==> IsSpace(s[i])
  }

  function TrimLeft(s: string): (r: string)
    ensures |r| <= |s| && r == s[|s| - |r|..]
    ensures r == [] || !IsSpace(r[0])
    ensures IsBlank(s[..|s| - |r|])
  {
    if s == [] || !IsSpace(s[0]) then s
    else
      var r := TrimLeft(s[1..]);
      var cut := s[..|s| - |r|];
      assert cut == [s[0]] + s[1..][..|s[1..]| - |r|];
      assert forall i :: 1 <= i < |cut| ==> cut[i] == s[1..][..|s[1..]| - |r|][i - 1];
      r
  }

  function TrimRight(s: string): (r: string)
    ensures |r| <= |s| && r == s[..|r|]
    ensures r == [] || !IsSpace(r[|r| - 1])
    ensures IsBlank(s[|r|..])
  {
    if s == [] || !IsSpace(s[|s| - 1]) then s
    else
      var r := TrimRight(s[..|s| - 1]);
      var cut := s[|r|..];
      assert cut == s[..|s| - 1][|r|..] + [s[|s| - 1]];
      assert forall i :: 0 <= i < |cut| - 1 ==> cut[i] == s[..|s| - 1][|r|..][i];
      r
  }

  /** Python's str.strip(): drop leading and trailing white space. The result
      is a slice of s with only white space before and after it, and it
      neither starts nor ends with white space. */
  function Strip(s: string): (r: string)
    ensures exists i, j :: 0 <= i <= j <= |s| && r == s[i..j] && IsBlank(s[..i]) && IsBlank(s[j..])
    ensures Stripped(r)
    ensures r == [] <==> IsBlank(s)
    ensures Stripped(s) ==> r == s
  {
    StripIsStripped(s);
    StripEmptyIffBlank(s);
    StripKeepsStripped(s);
    StripIsSlice(s);
    TrimRight(TrimLeft(s))
  }

  lemma StripIsSlice(s: string)
    ensures |s| - |TrimLeft(s)| + |TrimRight(TrimLeft(s))| <= |s|
    ensures TrimRight(TrimLeft(s)) == s[|s| - |TrimLeft(s)|..|s| - |TrimLeft(s)| + |TrimRight(TrimLeft(s))|]
    ensures IsBlank(s[|s| - |TrimLeft(s)| + |TrimRight(TrimLeft(s))|..])
  {
    var l := TrimLeft(s);
    var r := TrimRight(l);
    var i := |s| - |l|;
    BlankSlice(l, r, s, i);
  }

  /** When l is s from i on, a prefix r of l with blank rest is the slice of s
      from i, and what follows it in s is blank. */
  lemma BlankSlice(l: string, r: string, s: string, i: int)
    requires 0 <= i <= |s| && l == s[i..]
    requires |r| <= |l| && r == l[..|r|] && IsBlank(l[|r|..])
    ensures r == s[i..i + |r|] && IsBlank(s[i + |r|..])
  {
    assert l[|r|..] == s[i + |r|..];
  }

  /** A character absent from s is absent from s.strip(). */
  lemma StripKeepsOut(s: string, c: char)
    requires c !in s
    ensures c !in Strip(s)
  {
    var r := Strip(s);
    var i, j :| 0 <= i <= j <= |s| && r == s[i..j];
    forall k | 0 <= k < |r|
      ensures r[k] != c
    {
      assert r[k] == s[i + k];
    }
  }

  lemma StripIsStripped(s: string)
    ensures Stripped(TrimRight(TrimLeft(s)))
  {
    var l := TrimLeft(s);
    var r := TrimRight(l);
    if r != [] {
      assert r[0] == l[0];
    }
  }

  lemma StripEmptyIffBlank(s: string)
    ensures TrimRight(TrimLeft(s)) == [] <==> IsBlank(s)
  {
    var l := TrimLeft(s);
    var r := TrimRight(l);
    if r == [] {
      assert IsBlank(l) by { assert l[|r|..] == l; }
      assert l == [];
      assert s[..|s| - |l|] == s;
    } else {
      assert r[0] == l[0];
      assert l[0] == s[|s| - |l|];
    }
  }

  lemma StripKeepsStripped(s: string)
    ensures Stripped(s) ==> TrimRight(TrimLeft(s)) == s
  {
    if Stripped(s) && s != [] {
      assert TrimLeft(s) == s;
    }
  }

  /** Python's s.split(sep) for a one-character separator: always at least one
      piece, and no piece contains the separator. */
  function Split(s: string, sep: char): (r: seq<string>)
    ensures |r| >= 1
    ensures forall i :: 0 <= i < |r| ==> sep !in r[i]
  {
    if s == [] then [""]
    else if s[0] == sep then [""] + Split(s[1..], sep)
    else
      var rest := Split(s[1..], sep);
      [[s[0]] + rest[0]] + rest[1..]
  }

  /** Python's sep.join(lines) for a one-character separator. */
  function Join(lines: seq<string>, sep: char): (r: string)
    ensures lines == [] ==> r == []
    ensures |lines| == 1 ==> r == lines[0]
    ensures |lines| >= 1 ==> |lines[0]| <= |r| && r[..|lines[0]|] == lines[0]
  {
    if lines == [] then ""
    else if |lines| == 1 then lines[0]
    else lines[0] + [sep] + Join(lines[1..], sep)
  }

  /** Splitting a piece free of the separator followed by anything glues the
      piece onto the first piece of the rest. */
  lemma {:induction false} SplitPrefix(w: string, tail: string, sep: char)
    requires sep !in w
    ensures Split(w + tail, sep) == [w + Split(tail, sep)[0]] + Split(tail, sep)[1..]
  {
    if w != [] {
      assert (w + tail)[0] == w[0];
      assert (w + tail)[1..] == w[1..] + tail;
      SplitPrefix(w[1..], tail, sep);
      assert [w[0]] + (w[1..] + Split(tail, sep)[0]) == w + Split(tail, sep)[0];
    } else {
      assert w + tail == tail;
      assert w + Split(tail, sep)[0] == Split(tail, sep)[0];
      assert Split(tail, sep) == [Split(tail, sep)[0]] + Split(tail, sep)[1..];
    }
  }

  /** Joining separator-free pieces and splitting again gives the pieces back. */
  lemma {:induction false} SplitJoin(lines: seq<string>, sep: char)
    requires |lines| >= 1
    requires forall i :: 0 <= i < |lines| ==> sep !in lines[i]
    ensures Split(Join(lines, sep), sep) == lines
  {
    if |lines| == 1 {
      SplitPrefix(lines[0], "", sep);
      assert lines[0] + "" == lines[0];
      assert Split("", sep) == [""];
    } else {
      var rest := Join(lines[1..], sep);
      SplitJoin(lines[1..], sep);
      SplitPrefix(lines[0], [sep] + rest, sep);
      assert ([sep] + rest)[1..] == rest;
      assert Split([sep] + rest, sep) == [""] + Split(rest, sep);
      calc {
        Split(Join(lines, sep), sep);
        { assert Join(lines, sep) == lines[0] + ([sep] + rest); }
        Split(lines[0] + ([sep] + rest), sep);
        [lines[0] + ""] + lines[1..];
        { assert lines[0] + "" == lines[0]; }
        lines;
      }
    }
  }

  function DigitChar(d: nat): (c: char)
    requires d < 10
    ensures '0' <= c <= '9' && c as int - '0' as int == d
  {
    ('0' as int + d) as char
  }

  /** The decimal text of a non-negative int, as Python's str() renders it:
      digits only, no sign, no leading zero except for 0 itself. */
  function DecimalString(n: nat): (r: string)
    ensures |r| >= 1
    ensures forall i :: 0 <= i < |r| ==> '0' <= r[i] <= '9'
    ensures r[0] == '0' ==> n == 0
  {
    if n < 10 then [DigitChar(n)] else DecimalString(n / 10) + [DigitChar(n % 10)]
  }

  /** Reads a string of decimal digits back as a number. */
  function DecimalValue(s: string): nat
    requires forall i :: 0 <= i < |s| ==> '0' <= s[i] <= '9'
  {
    if s == [] then 0
    else DecimalValue(s[..|s| - 1]) * 10 + (s[|s| - 1] as int - '0' as int)
  }

  /** The rendered number can be read back: a message that ends with it names
      exactly that number. */
  lemma {:induction false} DecimalRoundTrip(n: nat)
    ensures DecimalValue(DecimalString(n)) == n
  {
    if n >= 10 {
      var s := DecimalString(n);
      DecimalRoundTrip(n / 10);
      assert s[..|s| - 1] == DecimalString(n / 10);
    }
  }
}
