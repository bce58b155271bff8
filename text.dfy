/**
 * The JavaScript string operations the server relies on: `String.prototype.trim`,
 * `String.prototype.split` on one separator character, the HTML escaping of the
 * express-validator `escape()` sanitizer, and the binary string order MongoDB sorts by.
 */
module Text {

  import opened Wrappers

  /** White space and line terminators, as `trim()` and the regular-expression class `\s` see them. */
  predicate IsWhitespace(c: char) {
    || c == ' ' || c == '\t' || c == '\n' || c == '\r' || c == '\U{B}' || c == '\U{C}'
    || c == '\U{A0}' || c == '\U{1680}' || ('\U{2000}' <= c <= '\U{200A}')
    || c == '\U{2028}' || c == '\U{2029}' || c == '\U{202F}' || c == '\U{205F}'
    || c == '\U{3000}' || c == '\U{FEFF}'
  }

  predicate AllWhitespace(s: string) {
    forall i :: 0 <= i < |s| ==> IsWhitespace(s[i])
  }

  /** Neither end of `s` is white space. */
  predicate IsTrimmed(s: string) {
    s == [] || (!IsWhitespace(s[0]) && !IsWhitespace(s[|s| - 1]))
  }

  /** `s` with its leading white space removed: a suffix of `s`, cut after white space only. */
  function TrimStart(s: string): (r: string)
    ensures |r| <= |s| && r == s[|s| - |r|..]
    ensures r == [] || !IsWhitespace(r[0])
    ensures forall i :: 0 <= i < |s| - |r| ==> IsWhitespace(s[i])
  {
    if s != [] && IsWhitespace(s[0]) then TrimStart(s[1..]) else s
  }

  /** `s` with its trailing white space removed: a prefix of `s`, cut before white space only. */
  function TrimEnd(s: string): (r: string)
    ensures |r| <= |s| && r == s[..|r|]
    ensures r == [] || !IsWhitespace(r[|r| - 1])
    ensures forall i :: |r| <= i < |s| ==> IsWhitespace(s[i])
  {
    if s != [] && IsWhitespace(s[|s| - 1]) then TrimEnd(s[..|s| - 1]) else s
  }

  /** `String.prototype.trim`: white space removed from both ends. */
  function Trim(s: string): (r: string)
    ensures IsTrimmed(r) && |r| <= |s|
  {
    var t := TrimStart(s);
    var r := TrimEnd(t);
    assert r != [] ==> r[0] == t[0];
    r
  }

  /**
   * `Trim` removes a white-space margin from each side of `s` and nothing else: it is the
   * slice of `s` between the returned cut points, with only white space outside them.
   */
  lemma TrimMargins(s: string) returns (lead: nat, m: nat)
    ensures lead <= m <= |s| && Trim(s) == s[lead..m]
    ensures AllWhitespace(s[..lead]) && AllWhitespace(s[m..])
  {
    var t := TrimStart(s);
    lead, m := Margins(s, t, TrimEnd(t));
  }

  /** A white-space prefix cut from `s`, then a white-space suffix cut from what is left. */
  lemma Margins(s: string, t: string, r: string) returns (lead: nat, m: nat)
    requires |t| <= |s| && t == s[|s| - |t|..] && forall i :: 0 <= i < |s| - |t| ==> IsWhitespace(s[i])
    requires |r| <= |t| && r == t[..|r|] && forall i :: |r| <= i < |t| ==> IsWhitespace(t[i])
    ensures lead <= m <= |s| && r == s[lead..m]
    ensures AllWhitespace(s[..lead]) && AllWhitespace(s[m..])
  {
    lead, m := |s| - |t|, |s| - |t| + |r|;
    assert forall i :: 0 <= i < |s[m..]| ==> s[m..][i] == t[|r| + i];
  }

  lemma {:induction false} TrimStartSkips(a: string, x: string)
    requires AllWhitespace(a)
    ensures TrimStart(a + x) == TrimStart(x)
  {
    if a == [] {
      assert a + x == x;
    } else {
      assert IsWhitespace(a[0]);
      assert (a + x)[0] == a[0] && (a + x)[1..] == a[1..] + x;
      TrimStartSkips(a[1..], x);
    }
  }

  lemma {:induction false} TrimEndSkips(x: string, b: string)
    requires AllWhitespace(b)
    ensures TrimEnd(x + b) == TrimEnd(x)
  {
    if b == [] {
      assert x + b == x;
    } else {
      var n := |b| - 1;
      assert IsWhitespace(b[n]);
      assert (x + b)[|x + b| - 1] == b[n] && (x + b)[..|x + b| - 1] == x + b[..n];
      TrimEndSkips(x, b[..n]);
    }
  }

  /**
   * Characterisation of `Trim` independent of its definition: whatever trimmed text sits
   * between two white-space margins is what `Trim` returns.
   */
  lemma {:induction false} TrimOfPadded(a: string, t: string, b: string)
    requires AllWhitespace(a) && AllWhitespace(b) && IsTrimmed(t)
    ensures Trim(a + t + b) == t
  {
    assert a + t + b == a + (t + b);
    TrimStartSkips(a, t + b);
    if t == [] {
      assert t + b == b;
      assert TrimEnd([]) == [];
    } else {
      assert TrimStart(t + b) == t + b;
      TrimEndSkips(t, b);
      assert TrimEnd(t) == t;
    }
  }

  /** Trimming twice is trimming once. */
  lemma TrimIdempotent(s: string)
    ensures Trim(Trim(s)) == Trim(s)
  {
    var t := Trim(s);
    assert [] + t + [] == t;
    TrimOfPadded([], t, []);
  }

  /** Text with no white space at either end is left alone. */
  lemma TrimmedIsFixed(s: string)
    requires IsTrimmed(s)
    ensures Trim(s) == s
  {
    assert [] + s + [] == s;
    TrimOfPadded([], s, []);
  }

  /** Trimming adds no character: what is absent from `s` is absent from its trimmed form. */
  lemma TrimWithin(s: string, c: char)
    requires c !in s
    ensures c !in Trim(s)
  {
    var lead, m := TrimMargins(s);
  }

  /** `parts` glued back together with the separator in between. */
  function Join(parts: seq<string>, sep: char): string
    requires |parts| >= 1
  {
    if |parts| == 1 then parts[0] else parts[0] + [sep] + Join(parts[1..], sep)
  }

  /**
   * `s.split(sep)` for a one-character separator: at least one piece, none holding the
   * separator, and joining the pieces gives `s` back.
   */
  function Split(s: string, sep: char): (r: seq<string>)
    ensures |r| >= 1
    ensures forall i :: 0 <= i < |r| ==> sep !in r[i]
    ensures Join(r, sep) == s
  {
    if s == [] then [""]
    else
      var rest := Split(s[1..], sep);
      if s[0] == sep then [""] + rest
      else
        assert Join(rest, sep) == rest[0] + Join(rest, sep)[|rest[0]|..];
        [[s[0]] + rest[0]] + rest[1..]
  }

  lemma {:induction false} SplitWithout(a: string, sep: char)
    requires sep !in a
    ensures Split(a, sep) == [a]
  {
    if a != [] {
      SplitWithout(a[1..], sep);
      assert [a[0]] + a[1..] == a;
    }
  }

  /** A piece without the separator, then the separator, splits off as the first piece. */
  lemma {:induction false} SplitAtSeparator(a: string, sep: char, rest: string)
    requires sep !in a
    ensures Split(a + [sep] + rest, sep) == [a] + Split(rest, sep)
  {
    if a == [] {
      assert a + [sep] + rest == [sep] + rest;
    } else {
      assert (a + [sep] + rest)[1..] == a[1..] + [sep] + rest;
      SplitAtSeparator(a[1..], sep, rest);
      assert [a[0]] + a[1..] == a;
    }
  }

  /** Splitting undoes joining when no piece contains the separator. */
  lemma {:induction false} SplitJoin(parts: seq<string>, sep: char)
    requires |parts| >= 1
    requires forall i :: 0 <= i < |parts| ==> sep !in parts[i]
    ensures Split(Join(parts, sep), sep) == parts
  {
    if |parts| == 1 {
      SplitWithout(parts[0], sep);
    } else {
      SplitJoin(parts[1..], sep);
      SplitAtSeparator(parts[0], sep, Join(parts[1..], sep));
      assert [parts[0]] + parts[1..] == parts;
    }
  }

  /** Joining a concatenation joins each part and puts one separator between them. */
  lemma {:induction false} JoinAppend(p: seq<string>, q: seq<string>, sep: char)
    requires |p| >= 1 && |q| >= 1
    ensures Join(p + q, sep) == Join(p, sep) + [sep] + Join(q, sep)
  {
    assert (p + q)[0] == p[0];
    if |p| == 1 {
      assert (p + q)[1..] == q;
    } else {
      assert (p + q)[1..] == p[1..] + q;
      JoinAppend(p[1..], q, sep);
    }
  }

  /** Splitting at a separator splits each side apart: the pieces of both, in order. */
  lemma SplitConcat(a: string, sep: char, b: string)
    ensures Split(a + [sep] + b, sep) == Split(a, sep) + Split(b, sep)
  {
    var pa, pb := Split(a, sep), Split(b, sep);
    JoinAppend(pa, pb, sep);
    assert forall i :: 0 <= i < |pa + pb| ==> sep !in (pa + pb)[i] by {
      forall i | 0 <= i < |pa + pb|
        ensures sep !in (pa + pb)[i]
      {
        if i < |pa| {
          assert (pa + pb)[i] == pa[i];
        } else {
          assert (pa + pb)[i] == pb[i - |pa|];
        }
      }
    }
    SplitJoin(pa + pb, sep);
  }

  /** The first piece of a split is the text before the first separator, or all of it. */
  lemma FirstPiece(s: string, sep: char)
    ensures Split(s, sep)[0] == s[..|Split(s, sep)[0]|]
    ensures |Split(s, sep)[0]| == |s| || s[|Split(s, sep)[0]|] == sep
  {
    var r := Split(s, sep);
    if |r| > 1 {
      assert s == r[0] + [sep] + Join(r[1..], sep);
    }
  }

  /** `s.split(sep)[i]`, which is `undefined` (`None`) past the last piece. */
  function Piece(s: string, sep: char, i: nat): Option<string> {
    var parts := Split(s, sep);
    if i < |parts| then Some(parts[i]) else None
  }

  /** The characters the express-validator `escape()` sanitizer replaces. */
  predicate IsHtmlSpecial(c: char) {
    c == '&' || c == '"' || c == '\'' || c == '<' || c == '>' || c == '/' || c == '\\' || c == '`'
  }

  function EscapeChar(c: char): (e: string)
    ensures |e| >= 1
    ensures forall i :: 0 <= i < |e| ==> !IsHtmlSpecial(e[i]) || e[i] == '&'
  {
    match c
    case '&' => "&amp;"
    case '"' => "&quot;"
    case '\'' => "&#x27;"
    case '<' => "&lt;"
    case '>' => "&gt;"
    case '/' => "&#x2F;"
    case '\\' => "&#x5C;"
    case '`' => "&#96;"
    case _ => [c]
  }

  /**
   * The `escape()` sanitizer: each special character becomes its entity, so only the
   * ampersand of an entity is left from the special characters.
   */
  function Escape(s: string): (r: string)
    ensures forall i :: 0 <= i < |r| ==> !IsHtmlSpecial(r[i]) || r[i] == '&'
    ensures |r| >= |s|
  {
    if s == [] then []
    else
      var e, rest := EscapeChar(s[0]), Escape(s[1..]);
      assert forall i :: |e| <= i < |e + rest| ==> (e + rest)[i] == rest[i - |e|];
      e + rest
  }

  /** The inverse of `Escape`: entities back to their characters. */
  function Unescape(s: string): string {
    if s == [] then []
    else if "&amp;" <= s then "&" + Unescape(s[5..])
    else if "&quot;" <= s then "\"" + Unescape(s[6..])
    else if "&#x27;" <= s then "'" + Unescape(s[6..])
    else if "&lt;" <= s then "<" + Unescape(s[4..])
    else if "&gt;" <= s then ">" + Unescape(s[4..])
    else if "&#x2F;" <= s then "/" + Unescape(s[6..])
    else if "&#x5C;" <= s then "\\" + Unescape(s[6..])
    else if "&#96;" <= s then "`" + Unescape(s[5..])
    else [s[0]] + Unescape(s[1..])
  }

  lemma UnescapeAmp(rest: string)
    ensures Unescape("&amp;" + rest) == ['&'] + Unescape(rest)
  {
    var s := "&amp;" + rest;
    assert s[0] == '&' && s[1] == 'a' && s[2] == 'm' && s[3] == 'p' && s[4] == ';';
    assert s[5..] == rest;
  }

  lemma UnescapeQuot(rest: string)
    ensures Unescape("&quot;" + rest) == ['"'] + Unescape(rest)
  {
    var s := "&quot;" + rest;
    assert s[0] == '&' && s[1] == 'q' && s[2] == 'u' && s[3] == 'o' && s[4] == 't' && s[5] == ';';
    assert s[6..] == rest;
  }

  lemma UnescapeApos(rest: string)
    ensures Unescape("&#x27;" + rest) == ['\''] + Unescape(rest)
  {
    var s := "&#x27;" + rest;
    assert s[0] == '&' && s[1] == '#' && s[2] == 'x' && s[3] == '2' && s[4] == '7' && s[5] == ';';
    assert s[6..] == rest;
  }

  lemma UnescapeLt(rest: string)
    ensures Unescape("&lt;" + rest) == ['<'] + Unescape(rest)
  {
    var s := "&lt;" + rest;
    assert s[0] == '&' && s[1] == 'l' && s[2] == 't' && s[3] == ';';
    assert s[4..] == rest;
  }

  lemma UnescapeGt(rest: string)
    ensures Unescape("&gt;" + rest) == ['>'] + Unescape(rest)
  {
    var s := "&gt;" + rest;
    assert s[0] == '&' && s[1] == 'g' && s[2] == 't' && s[3] == ';';
    assert s[4..] == rest;
  }

  lemma UnescapeSlash(rest: string)
    ensures Unescape("&#x2F;" + rest) == ['/'] + Unescape(rest)
  {
    var s := "&#x2F;" + rest;
    assert s[0] == '&' && s[1] == '#' && s[2] == 'x' && s[3] == '2' && s[4] == 'F' && s[5] == ';';
    assert s[6..] == rest;
  }

  lemma UnescapeBackslash(rest: string)
    ensures Unescape("&#x5C;" + rest) == ['\\'] + Unescape(rest)
  {
    var s := "&#x5C;" + rest;
    assert s[0] == '&' && s[1] == '#' && s[2] == 'x' && s[3] == '5' && s[4] == 'C' && s[5] == ';';
    assert s[6..] == rest;
  }

  lemma UnescapeBacktick(rest: string)
    ensures Unescape("&#96;" + rest) == ['`'] + Unescape(rest)
  {
    var s := "&#96;" + rest;
    assert s[0] == '&' && s[1] == '#' && s[2] == '9' && s[3] == '6' && s[4] == ';';
    assert s[5..] == rest;
  }

  /** Decoding an escaped character, followed by anything, gives back that character first. */
  lemma UnescapeEscapeChar(c: char, rest: string)
    ensures Unescape(EscapeChar(c) + rest) == [c] + Unescape(rest)
  {
    match c
    case '&' => UnescapeAmp(rest);
    case '"' => UnescapeQuot(rest);
    case '\'' => UnescapeApos(rest);
    case '<' => UnescapeLt(rest);
    case '>' => UnescapeGt(rest);
    case '/' => UnescapeSlash(rest);
    case '\\' => UnescapeBackslash(rest);
    case '`' => UnescapeBacktick(rest);
    case _ =>
      var s := [c] + rest;
      assert s[0] == c && s[1..] == rest;
  }

  /** Escaping loses nothing: unescaping gives the original text back. */
  lemma {:induction false} UnescapeEscape(s: string)
    ensures Unescape(Escape(s)) == s
  {
    if s != [] {
      UnescapeEscape(s[1..]);
      UnescapeEscapeChar(s[0], Escape(s[1..]));
      assert [s[0]] + s[1..] == s;
    }
  }

  /** Text free of special characters is not changed by escaping. */
  lemma {:induction false} EscapePlain(s: string)
    requires forall i :: 0 <= i < |s| ==> !IsHtmlSpecial(s[i])
    ensures Escape(s) == s
  {
    if s != [] {
      EscapePlain(s[1..]);
      assert [s[0]] + s[1..] == s;
    }
  }

  /**
   * Lexicographic order on character codes: how MongoDB orders two strings when
   * sorting (for text without unpaired surrogates).
   */
  predicate StrLe(a: string, b: string) {
    a == [] || (b != [] && (a[0] < b[0] || (a[0] == b[0] && StrLe(a[1..], b[1..]))))
  }

  lemma {:induction false} StrLeTotal(a: string, b: string)
    ensures StrLe(a, b) || StrLe(b, a)
  {
    if a != [] && b != [] && a[0] == b[0] {
      StrLeTotal(a[1..], b[1..]);
    }
  }

  lemma {:induction false} StrLeTrans(a: string, b: string, c: string)
    requires StrLe(a, b) && StrLe(b, c)
    ensures StrLe(a, c)
  {
    if a != [] && b != [] && c != [] && a[0] == b[0] && b[0] == c[0] {
      StrLeTrans(a[1..], b[1..], c[1..]);
    }
  }
}
