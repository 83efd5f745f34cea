/**
  The dashboard's cookie reader (`getCookie` in core/static/core/js/dashboard.js),
  used to fetch the CSRF token sent with every API call.

  The cookie string is split on ';', each entry is trimmed, and the value of the
  first entry that starts with `name=` is URI-decoded and returned; `null` when no
  entry does.
 */
module Cookies {
  import opened Wrappers
  import opened Strings

  /** `getCookie`'s outcome: `null`, a decoded value, or the `URIError` `decodeURIComponent` throws. */
  datatype Lookup = NoCookie | Found(value: string) | Malformed

  predicate HasPrefix(s: string, p: string) {
    |p| <= |s| && s[..|p|] == p
  }

  /** The text an entry must start with: the name followed by '='. */
  function Key(name: string): string {
    name + "="
  }

  /** `cookie.substring(0, name.length + 1) === name + '='`, where `substring` clamps to the string's end. */
  predicate Names(entry: string, name: string) {
    HasPrefix(Strip(entry, JavaScript), Key(name))
  }

  /** Reference definition: the index of the first of `entries` from `from` on that is named `name`. */
  function FirstNamed(entries: seq<string>, name: string, from: nat): (k: Option<nat>)
    ensures k.Some? ==> from <= k.value < |entries| && Names(entries[k.value], name)
                        && forall j :: from <= j < k.value ==> !Names(entries[j], name)
    ensures k.None? ==> forall j :: from <= j < |entries| ==> !Names(entries[j], name)
    decreases |entries| - from
  {
    if from >= |entries| then None
    else if Names(entries[from], name) then Some(from)
    else FirstNamed(entries, name, from + 1)
  }

  /** The outcome of decoding the raw value of a named entry. */
  function Decoded(raw: string, decode: string -> Option<string>): Lookup {
    match decode(raw)
    case Some(v) => Found(v)
    case None => Malformed
  }

  /** The raw value of an entry named `name`: what follows `name=` in the trimmed entry. */
  function RawValue(entry: string, name: string): (raw: string)
    requires Names(entry, name)
    ensures Strip(entry, JavaScript) == Key(name) + raw
  {
    Strip(entry, JavaScript)[|Key(name)|..]
  }

  /**
    The value `getCookie(name)` reports for the cookie string `cookie`, defined
    from the first named entry.
   */
  function CookieValue(name: string, cookie: string, decode: string -> Option<string>): Lookup {
    if cookie == "" then NoCookie
    else
      var entries := Split(cookie, ';');
      match FirstNamed(entries, name, 0)
      case None => NoCookie
      case Some(k) => Decoded(RawValue(entries[k], name), decode)
  }

  /**
    `getCookie(name)` over `document.cookie == cookie`, with `decodeURIComponent`
    given as `decode`: the loop stops at the first entry that starts with `name=`.
   */
  method GetCookie(name: string, cookie: string, decode: string -> Option<string>) returns (r: Lookup)
    ensures r == CookieValue(name, cookie, decode)
    ensures r.NoCookie? ==> cookie == "" || forall j :: 0 <= j < |Split(cookie, ';')| ==> !Names(Split(cookie, ';')[j], name)
    ensures !r.NoCookie? ==> cookie != "" && exists j :: 0 <= j < |Split(cookie, ';')| && Names(Split(cookie, ';')[j], name)
  {
    r := NoCookie;
    if cookie != "" {
      var cookies := Split(cookie, ';');
      var i := 0;
      while i < |cookies|
        invariant i <= |cookies|
        invariant FirstNamed(cookies, name, 0) == FirstNamed(cookies, name, i)
      {
        var entry := Strip(cookies[i], JavaScript);
        if |entry| >= |name| + 1 && entry[..|name| + 1] == name + "=" {
          assert Names(cookies[i], name);
          assert FirstNamed(cookies, name, 0) == Some(i);
          assert RawValue(cookies[i], name) == entry[|name| + 1..];
          r := Decoded(entry[|name| + 1..], decode);
          return;
        }
        assert !Names(cookies[i], name);
        i := i + 1;
      }
      assert FirstNamed(cookies, name, 0).None?;
    }
  }

  /**
    A cookie whose name merely starts with the requested name is not a match:
    looking up "csrf" never picks the entry "csrftoken=...", with or without
    whitespace around the entry.
   */
  lemma LongerNameDoesNotMatch(name: string, other: string, value: string)
    requires name != [] && |name| < |other| && other[..|name|] == name && other[|name|] != '='
    ensures !Names(other + "=" + value, name)
  {
    var entry := other + "=" + value;
    var t := Strip(entry, JavaScript);
    StripSpec(entry, JavaScript);
    if IsSpace(name[0], JavaScript) {
      assert t == [] || t[0] != name[0];
    } else {
      var a, b :| 0 <= a <= b <= |entry| && t == entry[a..b] && AllSpace(entry[..a], JavaScript);
      assert entry[0] == name[0];
      assert a == 0;
      assert |t| <= |name| || t[|name|] == other[|name|];
    }
  }

  /**
    The value of a single `name=value` entry is found again, whatever other
    entries follow it, provided the entry has no ';' and no surrounding spaces.
   */
  lemma SetThenGet(name: string, value: string, rest: seq<string>, decode: string -> Option<string>)
    requires ';' !in name && ';' !in value && forall j :: 0 <= j < |rest| ==> ';' !in rest[j]
    requires name != [] && !IsSpace(name[0], JavaScript)
    requires value == [] || !IsSpace(value[|value| - 1], JavaScript)
    ensures CookieValue(name, Join([name + "=" + value] + rest, ';'), decode) == Decoded(value, decode)
  {
    var entry := name + "=" + value;
    var entries := [entry] + rest;
    var c := Join(entries, ';');
    SeparatorFree(name, value, rest);
    SplitJoin(entries, ';');
    EntryNamed(name, value);
    JoinHead(entries, ';');
    FirstEntryNamed(name, c, decode);
  }

  /** When the first entry of a non-empty cookie string is named `name`, its value is the one reported. */
  lemma FirstEntryNamed(name: string, cookie: string, decode: string -> Option<string>)
    requires cookie != "" && Names(Split(cookie, ';')[0], name)
    ensures CookieValue(name, cookie, decode) == Decoded(RawValue(Split(cookie, ';')[0], name), decode)
  {
    assert FirstNamed(Split(cookie, ';'), name, 0) == Some(0);
  }

  /** No entry of `[name=value] + rest` contains ';'. */
  lemma SeparatorFree(name: string, value: string, rest: seq<string>)
    requires ';' !in name && ';' !in value && forall j :: 0 <= j < |rest| ==> ';' !in rest[j]
    ensures forall j :: 0 <= j < |rest| + 1 ==> ';' !in ([name + "=" + value] + rest)[j]
  {
    var entries := [name + "=" + value] + rest;
    forall j | 0 <= j < |entries| ensures ';' !in entries[j] {
      if j > 0 {
        assert entries[j] == rest[j - 1];
      } else {
        assert forall c :: c in entries[0] ==> c in name || c == '=' || c in value;
      }
    }
  }

  /** The entry `name=value` without surrounding spaces is named `name` and holds `value`. */
  lemma EntryNamed(name: string, value: string)
    requires name != [] && !IsSpace(name[0], JavaScript)
    requires value == [] || !IsSpace(value[|value| - 1], JavaScript)
    ensures Names(name + "=" + value, name)
    ensures RawValue(name + "=" + value, name) == value
  {
    var entry := name + "=" + value;
    assert entry[0] == name[0];
    assert entry[|entry| - 1] == if value == [] then '=' else value[|value| - 1];
    StripUnspaced(entry);
    assert entry == Key(name) + value;
    assert entry[..|Key(name)|] == Key(name);
  }

  /** A join starts with its first piece. */
  lemma JoinHead(pieces: seq<string>, sep: char)
    requires |pieces| >= 1
    ensures |Join(pieces, sep)| >= |pieces[0]|
    ensures Join(pieces, sep)[..|pieces[0]|] == pieces[0]
  {
    if |pieces| > 1 {
      assert Join(pieces, sep) == pieces[0] + ([sep] + Join(pieces[1..], sep));
    }
  }

  /** A string that neither starts nor ends with whitespace is its own strip. */
  lemma StripUnspaced(s: string)
    requires s != [] && !IsSpace(s[0], JavaScript) && !IsSpace(s[|s| - 1], JavaScript)
    ensures Strip(s, JavaScript) == s
  {
    assert LeadingSpaces(s, JavaScript) == 0;
    assert TrailingSpaces(s, JavaScript) == 0;
  }
}
