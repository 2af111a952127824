/**
 String values in .config files: escaping on the way out, the regular expression that
 recognises a quoted string, and unescaping on the way in.
 */
module KconfigStrings {

  /** Python's s.replace() for a single character. */
  function Replace(s: string, c: char, text: string): (r: string) {
    if s == "" then "" else (if s[0] == c then text else [s[0]]) + Replace(s[1..], c, text)
  }

  /** Backslashes first, then quotes. */
  function Escape(s: string): string { Replace(Replace(s, '\\', "\\\\"), '"', "\\\"") }

  /** Left to right, a backslash followed by any character but a newline stands for that character. */
  function Unescape(s: string): string {
    if s == "" then ""
    else if s[0] == '\\' && |s| >= 2 && s[1] != '\n' then [s[1]] + Unescape(s[2..])
    else [s[0]] + Unescape(s[1..])
  }

  /** The language of the group in the regular expression for strings: characters other than
      backslash and quote, and backslashes with a character other than newline. */
  predicate IsBody(s: string) {
    || s == ""
    || (s[0] != '\\' && s[0] != '"' && IsBody(s[1..]))
    || (s[0] == '\\' && |s| >= 2 && s[1] != '\n' && IsBody(s[2..]))
  }

  const QUOTE := "\""

  /** The regular expression matches a prefix of `line`, with `body` as its group. */
  predicate Matches(line: string, body: string) {
    IsBody(body) && QUOTE + body + QUOTE <= line
  }

  /** The one-pass map the two replacements amount to. */
  function EscapeChar(c: char): string {
    if c == '\\' then "\\\\" else if c == '"' then "\\\"" else [c]
  }

  function EscapeEach(s: string): string { if s == "" then "" else EscapeChar(s[0]) + EscapeEach(s[1..]) }

  lemma {:induction false} ReplaceConcat(s: string, t: string, c: char, text: string)
    ensures Replace(s + t, c, text) == Replace(s, c, text) + Replace(t, c, text)
  {
    if s == "" {
      assert s + t == t;
    } else {
      assert (s + t)[1..] == s[1..] + t;
      ReplaceConcat(s[1..], t, c, text);
    }
  }

  /** Escaping backslashes first makes the two passes equal to one. */
  lemma {:induction false} EscapeIsOnePass(s: string)
    ensures Escape(s) == EscapeEach(s)
  {
    if s != "" {
      var first := if s[0] == '\\' then "\\\\" else [s[0]];
      ReplaceConcat(first, Replace(s[1..], '\\', "\\\\"), '"', "\\\"");
      EscapeIsOnePass(s[1..]);
      assert Replace(first, '"', "\\\"") == EscapeChar(s[0]) by {
        if s[0] == '\\' { assert first[1..][1..] == ""; } else { assert first[1..] == ""; }
      }
    }
  }

  lemma {:induction false} UnescapeEscapeEach(s: string)
    requires '\n' !in s
    ensures Unescape(EscapeEach(s)) == s && IsBody(EscapeEach(s))
  {
    if s != "" {
      var e, rest := EscapeEach(s), EscapeEach(s[1..]);
      UnescapeEscapeEach(s[1..]);
      assert e == EscapeChar(s[0]) + rest;
      if s[0] == '\\' || s[0] == '"' { assert e[2..] == rest; } else { assert e[1..] == rest; }
    }
  }

  /** A quoted string has at most one match: an unescaped quote ends the group. */
  lemma {:induction false} BodyUnique(b1: string, b2: string, tail1: string, tail2: string)
    requires IsBody(b1) && IsBody(b2) && b1 + QUOTE + tail1 == b2 + QUOTE + tail2
    ensures b1 == b2
  {
    var l1, l2 := b1 + QUOTE + tail1, b2 + QUOTE + tail2;
    if b1 == "" || b2 == "" {
      assert l1[0] == l2[0];
    } else {
      assert b1[0] == l1[0] == l2[0] == b2[0];
      var k := if b1[0] == '\\' then 2 else 1;
      assert l1[k..] == b1[k..] + QUOTE + tail1;
      assert l2[k..] == b2[k..] + QUOTE + tail2;
      if k == 2 { assert b1[1] == l1[1] == l2[1] == b2[1]; }
      BodyUnique(b1[k..], b2[k..], tail1, tail2);
      assert b1 == b1[..k] + b1[k..] && b2 == b2[..k] + b2[k..];
    }
  }

  /** Writing a newline-free string and reading the line back captures exactly the escaped text
      and returns the string. */
  lemma StringRoundTrip(s: string)
    requires '\n' !in s
    ensures Matches(QUOTE + Escape(s) + QUOTE, Escape(s))
    ensures forall b :: Matches(QUOTE + Escape(s) + QUOTE, b) ==> b == Escape(s)
    ensures Unescape(Escape(s)) == s
  {
    EscapeIsOnePass(s);
    UnescapeEscapeEach(s);
    var line := QUOTE + Escape(s) + QUOTE;
    hide Escape, Unescape, IsBody;
    forall b | Matches(line, b) ensures b == Escape(s) { OnlyMatch(Escape(s), b); }
  }

  lemma OnlyMatch(body: string, b: string)
    requires IsBody(body) && Matches(QUOTE + body + QUOTE, b)
    ensures b == body
  {
    hide IsBody;
    var line, m := QUOTE + body + QUOTE, QUOTE + b + QUOTE;
    var tail := line[|m|..];
    assert line == m + tail;
    assert line[1..] == b + QUOTE + tail;
    assert line[1..] == body + QUOTE + "";
    BodyUnique(body, b, "", tail);
  }

  /** Each character, with a backslash before it where `escaped` says so. */
  function Spelled(s: string, escaped: seq<bool>): string
    requires |s| == |escaped|
  {
    if s == "" then "" else (if escaped[0] then ['\\', s[0]] else [s[0]]) + Spelled(s[1..], escaped[1..])
  }

  /** Whichever characters are escaped, unescaping gives the string, if its backslashes are escaped and its
      newlines are not. */
  lemma {:induction false} UnescapeSpelled(s: string, escaped: seq<bool>)
    requires |s| == |escaped|
    requires forall k :: 0 <= k < |s| ==> (s[k] == '\\' ==> escaped[k]) && (s[k] == '\n' ==> !escaped[k])
    ensures Unescape(Spelled(s, escaped)) == s
  {
    if s != "" {
      UnescapeSpelled(s[1..], escaped[1..]);
      var all, rest := Spelled(s, escaped), Spelled(s[1..], escaped[1..]);
      assert all[if escaped[0] then 2 else 1..] == rest;
      assert s == [s[0]] + s[1..];
    }
  }

  /** The text before the first unescaped quote. */
  function ScanBody(s: string): (r: (bool, string))
    ensures r.0 ==> IsBody(r.1) && r.1 + QUOTE <= s
    ensures !r.0 ==> forall b :: IsBody(b) ==> !(b + QUOTE <= s)
  {
    if s == "" then
      (false, "")
    else if s[0] == '"' then
      (true, "")
    else
      var k := if s[0] == '\\' then 2 else 1;
      if |s| < k || (k == 2 && s[1] == '\n') then
        NoBody(s);
        (false, "")
      else
        var rest := ScanBody(s[k..]);
        ScanStep(s, k, rest.1);
        if rest.0 then (true, s[..k] + rest.1) else (false, "")
  }

  lemma NoBody(s: string)
    requires s != "" && s[0] == '\\' && (|s| < 2 || s[1] == '\n')
    ensures forall b :: IsBody(b) ==> !(b + QUOTE <= s)
  {
    forall b | IsBody(b) ensures !(b + QUOTE <= s) {
      assert (b + QUOTE)[0] == if b == "" then '"' else b[0];
    }
  }

  lemma ScanStep(s: string, k: nat, body: string)
    requires s != "" && s[0] != '"' && k == (if s[0] == '\\' then 2 else 1) && k <= |s| && (k == 2 ==> s[1] != '\n')
    ensures IsBody(body) && body + QUOTE <= s[k..] ==> IsBody(s[..k] + body) && s[..k] + body + QUOTE <= s
    ensures (forall b :: IsBody(b) ==> !(b + QUOTE <= s[k..])) ==> forall b :: IsBody(b) ==> !(b + QUOTE <= s)
  {
    assert (s[..k] + body)[k..] == body;
    if body + QUOTE <= s[k..] { assert s == s[..k] + s[k..]; }
    if b :| IsBody(b) && b + QUOTE <= s {
      assert (b + QUOTE)[0] == if b == "" then '"' else b[0];
      assert IsBody(b[k..]) && b[k..] + QUOTE == (b + QUOTE)[k..] <= s[k..];
    }
  }

  /** What the regular expression captures at the start of a line, if it matches. */
  function Capture(line: string): (r: (bool, string))
    ensures r.0 ==> Matches(line, r.1)
    ensures !r.0 ==> forall b :: !Matches(line, b)
  {
    if line == "" || line[0] != '"' then
      assert forall b :: (QUOTE + b + QUOTE)[0] == '"';
      (false, "")
    else
      var r := ScanBody(line[1..]);
      assert forall b :: QUOTE + b + QUOTE <= line <==> b + QUOTE <= line[1..] by { QuotedPrefix(line); }
      r
  }

  lemma QuotedPrefix(line: string)
    requires line != "" && line[0] == '"'
    ensures forall b :: QUOTE + b + QUOTE <= line <==> b + QUOTE <= line[1..]
  {
    forall b ensures QUOTE + b + QUOTE <= line <==> b + QUOTE <= line[1..] {
      assert (QUOTE + b + QUOTE)[1..] == b + QUOTE;
      assert line == QUOTE + line[1..];
    }
  }
}
