/** Line framing of the GM60 text protocol: a command goes out as its text
    followed by CR LF, and a reply is read back as text with the whitespace
    around it removed (Python's `str.strip()` with no argument). */
module Framing {

  /** The terminator appended to every command before it is written. */
  const Crlf: string := "\r\n"

  /** The characters Python's `str.strip()` removes: the ASCII controls TAB to CR,
      the separators 0x1C to 0x1F, SPACE, and the Unicode white-space characters. */
  predicate IsSpace(c: char) {
    ('\t' <= c <= '\r') || ('\U{1C}' <= c <= '\U{1F}') || c == ' '
    || c == '\U{85}' || c == '\U{A0}' || c == '\U{1680}'
    || ('\U{2000}' <= c <= '\U{200A}') || c == '\U{2028}' || c == '\U{2029}'
    || c == '\U{202F}' || c == '\U{205F}' || c == '\U{3000}'
  }

  /** Every character of `s` is white space. */
  predicate AllSpace(s: string) {
    forall i :: 0 <= i < |s| ==> IsSpace(s[i])
  }

  /** `s` neither starts nor ends with white space. */
  predicate Trimmed(s: string) {
    s == [] || (!IsSpace(s[0]) && !IsSpace(s[|s| - 1]))
  }

  /** The line written for `command`. */
  function Frame(command: string): (line: string)
    ensures |line| == |command| + 2
    ensures line[..|command|] == command && line[|command|..] == Crlf
  {
    command + Crlf
  }

  /** A line as every written line looks: something followed by CR LF. */
  predicate IsFramed(line: string) {
    |line| >= 2 && line[|line| - 2..] == Crlf
  }

  /** `s` without its leading white space. */
  function TrimStart(s: string): (r: string)
    ensures |r| <= |s| && r == s[|s| - |r|..]
    ensures r == [] || !IsSpace(r[0])
  {
    if |s| > 0 && IsSpace(s[0]) then TrimStart(s[1..]) else s
  }

  /** `s` without its trailing white space. */
  function TrimEnd(s: string): (r: string)
    ensures |r| <= |s| && r == s[..|r|]
    ensures r == [] || !IsSpace(r[|r| - 1])
  {
    if |s| > 0 && IsSpace(s[|s| - 1]) then TrimEnd(s[..|s| - 1]) else s
  }

  /** Python's `s.strip()`. */
  function Strip(s: string): (r: string)
    ensures |r| <= |s|
    ensures Trimmed(r)
  {
    TrimEnd(TrimStart(s))
  }

  /** `TrimStart` removes white space only. */
  lemma {:induction false} TrimStartRemovesSpace(s: string)
    ensures AllSpace(s[..|s| - |TrimStart(s)|])
  {
    if |s| > 0 && IsSpace(s[0]) {
      TrimStartRemovesSpace(s[1..]);
      assert s[..|s| - |TrimStart(s)|] == [s[0]] + s[1..][..|s[1..]| - |TrimStart(s[1..])|];
    }
  }

  /** `TrimEnd` removes white space only. */
  lemma {:induction false} TrimEndRemovesSpace(s: string)
    ensures AllSpace(s[|TrimEnd(s)|..])
  {
    if |s| > 0 && IsSpace(s[|s| - 1]) {
      var t := s[..|s| - 1];
      TrimEndRemovesSpace(t);
      assert s[|TrimEnd(s)|..] == t[|TrimEnd(t)|..] + [s[|s| - 1]];
    }
  }

  /** `TrimStart` cuts `s` into white space and the rest. */
  lemma TrimStartSplits(s: string) returns (a: string)
    ensures AllSpace(a) && s == a + TrimStart(s)
  {
    a := s[..|s| - |TrimStart(s)|];
    TrimStartRemovesSpace(s);
  }

  /** `TrimEnd` cuts `u` into the rest and white space. */
  lemma TrimEndSplits(u: string) returns (b: string)
    ensures AllSpace(b) && u == TrimEnd(u) + b
  {
    b := u[|TrimEnd(u)|..];
    TrimEndRemovesSpace(u);
  }

  /** Stripping removes white space only, and only at the two ends: the text
      is the stripped text with some white space before and after it. */
  lemma StripSplits(s: string)
    ensures exists a, b :: AllSpace(a) && AllSpace(b) && s == a + Strip(s) + b
  {
    var a := TrimStartSplits(s);
    var b := TrimEndSplits(TrimStart(s));
    AppendAssoc(a, Strip(s), b);
    assert s == a + Strip(s) + b;
  }

  lemma AppendAssoc<T>(a: seq<T>, b: seq<T>, c: seq<T>)
    ensures a + b + c == a + (b + c)
  {
  }

  /** Leading white space in front of a string that does not start with it is dropped. */
  lemma {:induction false} TrimStartOfSpaces(a: string, u: string)
    requires AllSpace(a)
    requires u == [] || !IsSpace(u[0])
    ensures TrimStart(a + u) == u
  {
    if a != [] {
      assert (a + u)[1..] == a[1..] + u;
      TrimStartOfSpaces(a[1..], u);
    } else {
      assert a + u == u;
    }
  }

  /** Trailing white space behind a string that does not end with it is dropped. */
  lemma {:induction false} TrimEndOfSpaces(u: string, b: string)
    requires AllSpace(b)
    requires u == [] || !IsSpace(u[|u| - 1])
    ensures TrimEnd(u + b) == u
  {
    if b != [] {
      assert (u + b)[..|u + b| - 1] == u + b[..|b| - 1];
      TrimEndOfSpaces(u, b[..|b| - 1]);
    } else {
      assert u + b == u;
    }
  }

  /** `Strip` is exactly "remove the white space around the text": whatever white
      space surrounds a trimmed text `t`, stripping gives back `t`. */
  lemma StripSurrounded(a: string, t: string, b: string)
    requires AllSpace(a) && AllSpace(b) && Trimmed(t)
    ensures Strip(a + t + b) == t
  {
    if t == [] {
      assert a + t + b == a + b;
      TrimStartOfSpaces(a + b, []);
      assert a + b + [] == a + b;
    } else {
      AppendAssoc(a, t, b);
      TrimStartOfSpaces(a, t + b);
      TrimEndOfSpaces(t, b);
    }
  }

  /** Stripping twice is stripping once. */
  lemma StripIdempotent(s: string)
    ensures Strip(Strip(s)) == Strip(s)
  {
    var t := Strip(s);
    assert [] + t + [] == t;
    StripSurrounded([], t, []);
  }

  /** A device that echoes a trimmed token as a framed line is read back as that
      token: framing and stripping are inverse on trimmed text. */
  lemma StripFrame(token: string)
    requires Trimmed(token)
    ensures Strip(Frame(token)) == token
  {
    assert [] + token + Crlf == Frame(token);
    StripSurrounded([], token, Crlf);
  }

  /** Distinct commands give distinct lines, and every line is framed. */
  lemma FrameInjective(c: string, d: string)
    ensures Frame(c) == Frame(d) ==> c == d
    ensures IsFramed(Frame(c))
  {
    if Frame(c) == Frame(d) {
      assert c == Frame(c)[..|c|];
      assert d == Frame(d)[..|d|];
    }
    assert Frame(c)[|Frame(c)| - 2..] == Frame(c)[|c|..];
  }
}
