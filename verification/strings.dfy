/**
  String primitives used by the Python and JavaScript code being modelled:
  lower-casing, whitespace stripping, substring containment, Python's `repr` of a
  string, and splitting on a separator character together with its inverse, joining.
 */
module Strings {

  /** Whose notion of whitespace a strip uses: Python's `str.strip()` or JavaScript's `trim()`. */
  datatype Whitespace = Python | JavaScript

  /**
    Python's `str.isspace()`: the ASCII controls tab through carriage return and
    the four separators U+001C to U+001F, the space, U+0085, and the Unicode
    space separators and line and paragraph separators.
   */
  predicate IsPythonSpace(c: char) {
    || c == ' ' || '\t' <= c <= '\r' || '\U{1C}' <= c <= '\U{1F}' || c == '\U{85}' || c == '\U{A0}'
    || c == '\U{1680}' || '\U{2000}' <= c <= '\U{200A}' || c == '\U{2028}' || c == '\U{2029}'
    || c == '\U{202F}' || c == '\U{205F}' || c == '\U{3000}'
  }

  /**
    ECMAScript's WhiteSpace and LineTerminator characters, which `trim()` removes:
    tab through carriage return, the space, the byte order mark and the Unicode
    space separators, line and paragraph separators.
   */
  predicate IsJavaScriptSpace(c: char) {
    || c == ' ' || '\t' <= c <= '\r' || c == '\U{A0}' || c == '\U{FEFF}'
    || c == '\U{1680}' || '\U{2000}' <= c <= '\U{200A}' || c == '\U{2028}' || c == '\U{2029}'
    || c == '\U{202F}' || c == '\U{205F}' || c == '\U{3000}'
  }

  predicate IsSpace(c: char, ws: Whitespace) {
    match ws
    case Python => IsPythonSpace(c)
    case JavaScript => IsJavaScriptSpace(c)
  }

  predicate IsUpper(c: char) {
    'A' <= c <= 'Z'
  }

  /** Maps an ASCII capital to its small letter; every other character is unchanged. */
  function LowerChar(c: char): (d: char)
    ensures !IsUpper(d)
    ensures IsUpper(c) ==> d as int == c as int + 32
    ensures !IsUpper(c) ==> d == c
  {
    if IsUpper(c) then (c as int + 32) as char else c
  }

  /** Python's `str.lower()` (and JavaScript's `toLowerCase()`) restricted to ASCII. */
  function Lower(s: string): (r: string)
    ensures |r| == |s|
    ensures forall i :: 0 <= i < |s| ==> r[i] == LowerChar(s[i])
  {
    seq(|s|, i requires 0 <= i < |s| => LowerChar(s[i]))
  }

  predicate IsLower(s: string) {
    forall i :: 0 <= i < |s| ==> !IsUpper(s[i])
  }

  /** Lower-casing twice is lower-casing once, and a string without capitals is left alone. */
  lemma LowerIdempotent(s: string)
    ensures IsLower(Lower(s))
    ensures Lower(Lower(s)) == Lower(s)
    ensures IsLower(s) ==> Lower(s) == s
  {
  }

  predicate AllSpace(s: string, ws: Whitespace) {
    forall i :: 0 <= i < |s| ==> IsSpace(s[i], ws)
  }

  /** The number of whitespace characters at the start of `s`. */
  function LeadingSpaces(s: string, ws: Whitespace): (k: nat)
    ensures k <= |s|
  {
    if |s| > 0 && IsSpace(s[0], ws) then 1 + LeadingSpaces(s[1..], ws) else 0
  }

  /** `LeadingSpaces` counts exactly the whitespace run that starts `s`. */
  lemma {:induction false} LeadingSpacesSpec(s: string, ws: Whitespace)
    ensures AllSpace(s[..LeadingSpaces(s, ws)], ws)
    ensures LeadingSpaces(s, ws) < |s| ==> !IsSpace(s[LeadingSpaces(s, ws)], ws)
  {
    if |s| > 0 && IsSpace(s[0], ws) {
      LeadingSpacesSpec(s[1..], ws);
      assert s[..LeadingSpaces(s, ws)] == [s[0]] + s[1..][..LeadingSpaces(s[1..], ws)];
    }
  }

  /** The number of whitespace characters at the end of `s`. */
  function TrailingSpaces(s: string, ws: Whitespace): (k: nat)
    ensures k <= |s|
  {
    if |s| > 0 && IsSpace(s[|s| - 1], ws) then 1 + TrailingSpaces(s[..|s| - 1], ws) else 0
  }

  /** `TrailingSpaces` counts exactly the whitespace run that ends `s`. */
  lemma {:induction false} TrailingSpacesSpec(s: string, ws: Whitespace)
    ensures AllSpace(s[|s| - TrailingSpaces(s, ws)..], ws)
    ensures TrailingSpaces(s, ws) < |s| ==> !IsSpace(s[|s| - TrailingSpaces(s, ws) - 1], ws)
  {
    if |s| > 0 && IsSpace(s[|s| - 1], ws) {
      var k := TrailingSpaces(s, ws);
      TrailingSpacesSpec(s[..|s| - 1], ws);
      assert s[|s| - k..] == s[..|s| - 1][|s| - k..] + [s[|s| - 1]];
    }
  }

  /** Python's `str.strip()` or JavaScript's `trim()`, as `ws` says. */
  function Strip(s: string, ws: Whitespace): string {
    var a := LeadingSpaces(s, ws);
    s[a..a + |s[a..]| - TrailingSpaces(s[a..], ws)]
  }

  /**
    The strip of `s` is the contiguous middle of `s` left after removing
    whitespace from both ends: it neither starts nor ends with whitespace, and it
    is empty exactly when `s` is all whitespace.
   */
  lemma StripSpec(s: string, ws: Whitespace)
    ensures exists a, b :: 0 <= a <= b <= |s| && Strip(s, ws) == s[a..b] && AllSpace(s[..a], ws) && AllSpace(s[b..], ws)
    ensures Strip(s, ws) != [] ==> !IsSpace(Strip(s, ws)[0], ws) && !IsSpace(Strip(s, ws)[|Strip(s, ws)| - 1], ws)
    ensures Strip(s, ws) == [] <==> AllSpace(s, ws)
  {
    var a := LeadingSpaces(s, ws);
    var t := s[a..];
    var b := a + |t| - TrailingSpaces(t, ws);
    LeadingSpacesSpec(s, ws);
    TrailingSpacesSpec(t, ws);
    assert Strip(s, ws) == s[a..b];
    assert s[a..b] == t[..|t| - TrailingSpaces(t, ws)];
    assert s[b..] == t[|t| - TrailingSpaces(t, ws)..];
    assert a == |s| ==> s[..a] == s;
    assert a < |s| ==> b > a && !AllSpace(s, ws) by {
      if a < |s| {
        assert !IsSpace(t[0], ws) && !IsSpace(s[a], ws);
      }
    }
  }

  /** True when `w` occurs in `s` at position `i`. */
  predicate OccursAt(s: string, w: string, i: int) {
    0 <= i && i + |w| <= |s| && s[i..i + |w|] == w
  }

  /** Python's `w in s` and JavaScript's `s.includes(w)`: substring containment. */
  function Contains(s: string, w: string): bool
    decreases |s|
  {
    if |w| <= |s| && s[..|w|] == w then true
    else if |s| <= |w| then false
    else Contains(s[1..], w)
  }

  /** `Contains` holds exactly when `w` occurs somewhere in `s`. */
  lemma {:induction false} ContainsSpec(s: string, w: string)
    ensures Contains(s, w) <==> exists i :: OccursAt(s, w, i)
    decreases |s|
  {
    if |w| <= |s| && s[..|w|] == w {
      assert OccursAt(s, w, 0);
    } else if |s| <= |w| {
      assert forall i :: !OccursAt(s, w, i) by {
        if |s| == |w| {
          assert s[0..|w|] == s[..|w|];
        }
      }
    } else {
      ContainsSpec(s[1..], w);
      if Contains(s[1..], w) {
        var i :| OccursAt(s[1..], w, i);
        assert s[i + 1..i + 1 + |w|] == s[1..][i..i + |w|];
        assert OccursAt(s, w, i + 1);
      }
      if i :| OccursAt(s, w, i) {
        assert i != 0 by { assert s[0..|w|] == s[..|w|]; }
        assert s[1..][i - 1..i - 1 + |w|] == s[i..i + |w|];
        assert OccursAt(s[1..], w, i - 1);
      }
    }
  }

  /** A literal occurrence of `w` in `s` at a known position gives containment. */
  lemma ContainsAt(s: string, w: string, i: nat)
    requires i + |w| <= |s| && s[i..i + |w|] == w
    ensures Contains(s, w)
  {
    assert OccursAt(s, w, i);
    ContainsSpec(s, w);
  }

  /** The lower-case hexadecimal digit of `d`. */
  function HexDigit(d: nat): char
    requires d < 16
  {
    if d < 10 then ('0' as int + d) as char else ('a' as int + d - 10) as char
  }

  /**
    True for the characters below U+0100 that Python's `repr` shows as a `\xhh`
    escape: the C0 controls other than tab, line feed and carriage return, DEL,
    the C1 controls, the no-break space and the soft hyphen.
   */
  predicate HexEscaped(c: char) {
    (c < ' ' && c != '\t' && c != '\n' && c != '\r') || '\U{7F}' <= c <= '\U{A0}' || c == '\U{AD}'
  }

  /** How `repr` shows one character inside a string quoted with `q`. */
  function EscapeChar(c: char, q: char): (e: string)
    ensures |e| >= 1
    ensures e == [c] <==> c != q && c != '\\' && c != '\t' && c != '\n' && c != '\r' && !HexEscaped(c)
  {
    if c == q || c == '\\' then ['\\', c]
    else if c == '\t' then "\\t"
    else if c == '\n' then "\\n"
    else if c == '\r' then "\\r"
    else if HexEscaped(c) then ['\\', 'x', HexDigit(c as int / 16), HexDigit(c as int % 16)]
    else [c]
  }

  function Escape(s: string, q: char): string
    decreases |s|
  {
    if s == [] then [] else EscapeChar(s[0], q) + Escape(s[1..], q)
  }

  /** The quote `repr` uses: a double quote when the text has a single quote and no double quote. */
  function QuoteFor(s: string): char {
    if '\'' in s && '"' !in s then '"' else '\''
  }

  /** Python's `repr(s)` of a string, the form `%R` gives in error messages. */
  function Repr(s: string): (r: string)
    ensures |r| >= |s| + 2
    ensures r[0] == QuoteFor(s) && r[|r| - 1] == QuoteFor(s)
    ensures r[1..|r| - 1] == Escape(s, QuoteFor(s))
  {
    EscapeLength(s, QuoteFor(s));
    [QuoteFor(s)] + Escape(s, QuoteFor(s)) + [QuoteFor(s)]
  }

  lemma {:induction false} EscapeLength(s: string, q: char)
    ensures |Escape(s, q)| >= |s|
    decreases |s|
  {
    if s != [] {
      EscapeLength(s[1..], q);
    }
  }

  /** A character `repr` shows as itself inside quotes `q`. */
  predicate Plain(c: char, q: char) {
    EscapeChar(c, q) == [c]
  }

  /** Escaping changes nothing exactly when every character is plain. */
  lemma {:induction false} EscapePlain(s: string, q: char)
    ensures Escape(s, q) == s <==> forall i :: 0 <= i < |s| ==> Plain(s[i], q)
    decreases |s|
  {
    if s != [] {
      EscapePlain(s[1..], q);
      EscapeLength(s[1..], q);
      assert forall i :: 1 <= i < |s| ==> s[i] == s[1..][i - 1];
      if !Plain(s[0], q) {
        var e := EscapeChar(s[0], q);
        assert |e| >= 2 || e[0] != s[0];
        assert Escape(s, q) == e + Escape(s[1..], q);
      } else {
        assert Escape(s, q) == [s[0]] + Escape(s[1..], q);
        if Escape(s, q) == s {
          assert Escape(s[1..], q) == Escape(s, q)[1..] == s[1..];
        }
      }
    }
  }

  /** A string whose characters all show as themselves is quoted with single quotes and nothing else. */
  lemma ReprPlain(s: string)
    requires forall i :: 0 <= i < |s| ==> Plain(s[i], '\'')
    ensures Repr(s) == "'" + s + "'"
  {
    EscapePlain(s, '\'');
  }

  /** A tab is shown as the two characters backslash and `t`. */
  lemma ReprOfTab()
    ensures Repr("\t") == "'\\t'"
  {
    assert Escape("\t", '\'') == EscapeChar('\t', '\'') + Escape([], '\'');
  }

  /** A single quote in the text switches `repr` to double quotes, leaving the quote unescaped. */
  lemma ReprOfApostrophe()
    ensures Repr("it's") == "\"it's\""
  {
    EscapePlain("it's", '"');
  }

  /**
    JavaScript's `s.split(sep)` for a one-character separator: the maximal pieces
    between separators, including empty ones, in order. There is always at least
    one piece, and no piece contains the separator.
   */
  function Split(s: string, sep: char): (r: seq<string>)
    ensures |r| >= 1
    ensures forall i :: 0 <= i < |r| ==> sep !in r[i]
    decreases |s|
  {
    if |s| == 0 then [""]
    else
      var rest := Split(s[1..], sep);
      if s[0] == sep then [""] + rest
      else [[s[0]] + rest[0]] + rest[1..]
  }

  /** JavaScript's `pieces.join(sep)` for a non-empty list of pieces. */
  function Join(pieces: seq<string>, sep: char): string
    requires |pieces| >= 1
    decreases |pieces|
  {
    if |pieces| == 1 then pieces[0]
    else pieces[0] + [sep] + Join(pieces[1..], sep)
  }

  /** Joining the pieces of a split restores the original string. */
  lemma {:induction false} JoinSplit(s: string, sep: char)
    ensures Join(Split(s, sep), sep) == s
    decreases |s|
  {
    if |s| > 0 {
      var rest := Split(s[1..], sep);
      JoinSplit(s[1..], sep);
      if s[0] == sep {
        assert Split(s, sep) == [""] + rest;
        assert ([""] + rest)[1..] == rest;
      } else {
        var r := Split(s, sep);
        assert r == [[s[0]] + rest[0]] + rest[1..];
        if |rest| == 1 {
          assert Join(r, sep) == [s[0]] + rest[0];
        } else {
          assert r[1..] == rest[1..];
          assert Join(rest, sep) == rest[0] + [sep] + Join(rest[1..], sep);
          assert Join(r, sep) == ([s[0]] + rest[0]) + [sep] + Join(rest[1..], sep);
        }
        assert s == [s[0]] + s[1..];
      }
    }
  }

  /** Unfolds `Split` on a string given as a first character and the rest. */
  lemma SplitCons(c: char, t: string, sep: char)
    ensures c == sep ==> Split([c] + t, sep) == [""] + Split(t, sep)
    ensures c != sep ==> Split([c] + t, sep) == [[c] + Split(t, sep)[0]] + Split(t, sep)[1..]
  {
    assert ([c] + t)[1..] == t;
  }

  /** Splitting a join of separator-free pieces recovers exactly those pieces. */
  lemma {:induction false} SplitJoin(pieces: seq<string>, sep: char)
    requires |pieces| >= 1
    requires forall i :: 0 <= i < |pieces| ==> sep !in pieces[i]
    ensures Split(Join(pieces, sep), sep) == pieces
    decreases |pieces|, |pieces[0]|
  {
    var p := pieces[0];
    if |p| == 0 {
      if |pieces| > 1 {
        var tail := Join(pieces[1..], sep);
        assert Join(pieces, sep) == [sep] + tail;
        SplitJoin(pieces[1..], sep);
        SplitCons(sep, tail, sep);
        assert pieces == [""] + pieces[1..];
      }
    } else {
      var shorter := [p[1..]] + pieces[1..];
      assert sep !in p[1..] by {
        assert forall c :: c in p[1..] ==> c in p;
      }
      assert forall i :: 1 <= i < |shorter| ==> shorter[i] == pieces[i];
      SplitJoin(shorter, sep);
      var rest := Join(shorter, sep);
      JoinCons(pieces, shorter, sep);
      assert p[0] != sep by { assert p[0] in p; }
      SplitCons(p[0], rest, sep);
      assert [p[0]] + p[1..] == p;
      assert pieces == [p] + shorter[1..];
    }
  }

  /** Moving the first character of the first piece out of a join. */
  lemma JoinCons(pieces: seq<string>, shorter: seq<string>, sep: char)
    requires |pieces| >= 1 && |pieces[0]| >= 1
    requires shorter == [pieces[0][1..]] + pieces[1..]
    ensures Join(pieces, sep) == [pieces[0][0]] + Join(shorter, sep)
  {
    var p := pieces[0];
    assert p == [p[0]] + p[1..];
    if |pieces| > 1 {
      assert shorter[1..] == pieces[1..];
    }
  }
}
