/**
  The translation service (`TranslationService` in core/translation_service.py).

  A blank or falsy text is echoed back without calling the backend. Otherwise the
  backend is asked up to three times, sleeping 0.2, 0.4 and 0.6 seconds after the
  first, second and third failure; the first success wins, and when all three fail
  the original text is returned with `success` false and the last error's text.
 */
module Translation {
  import opened Wrappers
  import opened Json
  import opened Strings

  /** The outcome of one call to the translation backend. */
  datatype Attempt =
    | Translated(text: string, detected: Option<string>)   // `result.text` and, when present, `result.src`
    | Failed(message: string)                               // the text of the raised exception

  /**
    The result dict. `error` is absent on success. The inputs are kept as the
    caller passed them, which need not be strings.
   */
  datatype TranslationResult = TranslationResult(
    original: Value, translated: Value, source: Value, target: Value,
    success: bool, error: Option<string>)

  /** The number of backend calls the service makes before giving up. */
  const MaxAttempts: nat := 3

  /** The pause, in seconds, after failed attempt number `k` (counting from 0). */
  function Backoff(k: nat): real {
    0.2 * (k + 1) as real
  }

  /** The pauses taken after the first `n` failed attempts, in order. */
  function Backoffs(n: nat): (ds: seq<real>)
    ensures |ds| == n
    ensures forall k :: 0 <= k < n ==> ds[k] == Backoff(k)
  {
    seq(n, k requires 0 <= k => Backoff(k))
  }

  function Sum(xs: seq<real>): real {
    if xs == [] then 0.0 else xs[0] + Sum(xs[1..])
  }

  /** The text needs no translation: Python's `not text or not text.strip()` holds. */
  predicate Blank(text: Value) {
    !Truthy(text) || (text.Str? && AllSpace(text.s, Python))
  }

  /**
    Reference definition of the retry policy: the first of the attempts numbered
    `from` up to `MaxAttempts` that succeeds, if any.
   */
  function FirstTranslated(backend: nat -> Attempt, from: nat): (k: Option<nat>)
    ensures k.Some? ==> from <= k.value < MaxAttempts && backend(k.value).Translated?
                        && forall j :: from <= j < k.value ==> backend(j).Failed?
    ensures k.None? ==> forall j :: from <= j < MaxAttempts ==> backend(j).Failed?
    decreases MaxAttempts - from
  {
    if from >= MaxAttempts then None
    else if backend(from).Translated? then Some(from)
    else FirstTranslated(backend, from + 1)
  }

  /** The result when the text is echoed back unchanged. */
  function Unchanged(text: Value, target: Value, source: Value, success: bool, error: Option<string>): TranslationResult {
    TranslationResult(text, text, source, target, success, error)
  }

  /**
    What `translate_text` promises about its result dict for these arguments and
    this backend: blank or falsy text is echoed with success; any other non-string
    fails with the `strip` attribute error; otherwise the first successful attempt
    supplies the translation and, when it detected one, the source language, and
    when all attempts fail the text is echoed with the last error.
   */
  predicate Answers(text: Value, target: Value, source: Value, backend: nat -> Attempt, r: TranslationResult) {
    && r.original == text && r.target == target
    && (r.success <==> r.error.None?)
    && (!r.success ==> r.translated == text && r.source == source)
    && (Blank(text) ==> r == Unchanged(text, target, source, true, None))
    && (!Blank(text) && !text.Str? ==> r == Unchanged(text, target, source, false, Some(NoAttribute(text, "strip"))))
    && (!Blank(text) && text.Str? && FirstTranslated(backend, 0).Some? ==>
          var k := FirstTranslated(backend, 0).value;
          && r.success && r.translated == Str(backend(k).text)
          && r.source == (match backend(k).detected case Some(s) => Str(s) case None => source))
    && (!Blank(text) && text.Str? && FirstTranslated(backend, 0).None? ==>
          r == Unchanged(text, target, source, false, Some(backend(MaxAttempts - 1).message)))
  }

  /**
    The retry loop: calls the backend until one call succeeds or `MaxAttempts`
    calls have failed, pausing after each failure. It reports the successful
    attempt, if any, the number of calls, the pauses, and the last failure's text.
   */
  method Retry(backend: nat -> Attempt) returns (won: Option<nat>, calls: nat, delays: seq<real>, lastError: string)
    ensures won == FirstTranslated(backend, 0)
    ensures won.Some? ==> calls == won.value + 1 && delays == Backoffs(won.value)
    ensures won.None? ==> calls == MaxAttempts && delays == Backoffs(MaxAttempts)
                          && lastError == backend(MaxAttempts - 1).message
  {
    calls, delays, lastError := 0, [], "";
    while calls < MaxAttempts
      invariant calls <= MaxAttempts
      invariant FirstTranslated(backend, 0) == FirstTranslated(backend, calls)
      invariant delays == Backoffs(calls)
      invariant calls > 0 ==> lastError == backend(calls - 1).message
    {
      var outcome := backend(calls);
      if outcome.Translated? {
        return Some(calls), calls + 1, delays, lastError;
      }
      lastError := outcome.message;
      delays := delays + [Backoff(calls)];
      calls := calls + 1;
    }
    won := None;
  }

  /**
    `translate_text(text, target_language, source_language)` against a backend whose
    `k`-th call (counting from 0) has outcome `backend(k)`. Besides the result it
    reports how many calls were made and the pauses taken, in order.
   */
  method Translate(text: Value, target: Value, source: Value, backend: nat -> Attempt)
    returns (r: TranslationResult, calls: nat, delays: seq<real>)
    ensures Answers(text, target, source, backend, r)
    ensures calls <= MaxAttempts && |delays| <= MaxAttempts
    ensures (Blank(text) || !text.Str?) ==> calls == 0 && delays == []
    ensures !Blank(text) && text.Str? && FirstTranslated(backend, 0).Some? ==>
              calls == FirstTranslated(backend, 0).value + 1 && delays == Backoffs(FirstTranslated(backend, 0).value)
    ensures !Blank(text) && text.Str? && FirstTranslated(backend, 0).None? ==>
              calls == MaxAttempts && delays == Backoffs(MaxAttempts)
  {
    if !Truthy(text) {
      return Unchanged(text, target, source, true, None), 0, [];
    }
    if !text.Str? {
      return Unchanged(text, target, source, false, Some(NoAttribute(text, "strip"))), 0, [];
    }
    assert Strip(text.s, Python) == "" <==> AllSpace(text.s, Python) by {
      StripSpec(text.s, Python);
    }
    if Strip(text.s, Python) == "" {
      return Unchanged(text, target, source, true, None), 0, [];
    }
    assert !Blank(text) && text.Str?;
    var won, lastError;
    won, calls, delays, lastError := Retry(backend);
    match won
    case Some(k) =>
      r := Succeeded(text, target, source, backend(k));
      SucceededAnswers(text, target, source, backend, k);
    case None =>
      r := Unchanged(text, target, source, false, Some(lastError));
      FailedAnswers(text, target, source, backend);
  }

  /** The result when attempt `a` translated the text. */
  function Succeeded(text: Value, target: Value, source: Value, a: Attempt): TranslationResult
    requires a.Translated?
  {
    var src := match a.detected case Some(s) => Str(s) case None => source;
    TranslationResult(text, Str(a.text), src, target, true, None)
  }

  /** A successful attempt `k` that the retry policy picks gives an answer the service promises. */
  lemma SucceededAnswers(text: Value, target: Value, source: Value, backend: nat -> Attempt, k: nat)
    requires !Blank(text) && text.Str? && FirstTranslated(backend, 0) == Some(k)
    ensures Answers(text, target, source, backend, Succeeded(text, target, source, backend(k)))
  {
  }

  /** When every attempt fails, the echo with the last error is the promised answer. */
  lemma FailedAnswers(text: Value, target: Value, source: Value, backend: nat -> Attempt)
    requires !Blank(text) && text.Str? && FirstTranslated(backend, 0).None?
    ensures Answers(text, target, source, backend, Unchanged(text, target, source, false, Some(backend(MaxAttempts - 1).message)))
  {
  }

  /** Three failures cost 1.2 seconds of sleeping in total: 0.2 + 0.4 + 0.6. */
  lemma WorstCaseDelay()
    ensures Backoffs(MaxAttempts) == [0.2, 0.4, 0.6]
    ensures Sum(Backoffs(MaxAttempts)) == 1.2
  {
    var ds := Backoffs(3);
    assert ds == [Backoff(0), Backoff(1), Backoff(2)];
    assert Sum(ds) == ds[0] + Sum(ds[1..]);
    assert Sum(ds[1..]) == ds[1] + Sum(ds[2..]);
    assert Sum(ds[2..]) == ds[2] + Sum(ds[3..]);
  }

  /** Every code of the catalog with its English name, in the source's order. */
  const Catalog: seq<(string, string)> := [
    ("en", "English"), ("hi", "Hindi"), ("es", "Spanish"), ("fr", "French"),
    ("de", "German"), ("it", "Italian"), ("pt", "Portuguese"), ("ru", "Russian"),
    ("ja", "Japanese"), ("ko", "Korean"), ("zh", "Chinese"), ("ar", "Arabic"),
    ("bn", "Bengali"), ("ta", "Tamil"), ("te", "Telugu"), ("ml", "Malayalam"),
    ("kn", "Kannada"), ("gu", "Gujarati"), ("pa", "Punjabi"), ("or", "Odia"),
    ("as", "Assamese"), ("ne", "Nepali"), ("si", "Sinhala"), ("my", "Burmese"),
    ("th", "Thai"), ("vi", "Vietnamese"), ("id", "Indonesian"), ("ms", "Malay"),
    ("tl", "Filipino")
  ]

  /** The codes of a list of pairs, in order. */
  function Codes(pairs: seq<(string, string)>): (cs: seq<string>)
    ensures |cs| == |pairs|
    ensures forall i {:trigger cs[i]} :: 0 <= i < |pairs| ==> cs[i] == pairs[i].0
  {
    seq(|pairs|, i requires 0 <= i < |pairs| => pairs[i].0)
  }

  /** No code occurs twice. */
  predicate Distinct(cs: seq<string>) {
    forall i, j :: 0 <= i < j < |cs| ==> cs[i] != cs[j]
  }

  /**
    The dict of a list of pairs: every code is a key, every key is some pair's
    code. On a repeated code the earlier pair wins, unlike a Python dict display;
    `ToMapDistinct` shows the difference never arises for distinct codes.
   */
  function ToMap(pairs: seq<(string, string)>): (m: map<string, string>)
    ensures forall i :: 0 <= i < |pairs| ==> pairs[i].0 in m
    ensures forall code :: code in m ==> exists i :: 0 <= i < |pairs| && pairs[i].0 == code
    decreases |pairs|
  {
    if pairs == [] then map[]
    else
      var rest := ToMap(pairs[1..]);
      var m := rest[pairs[0].0 := pairs[0].1];
      assert forall i :: 1 <= i < |pairs| ==> pairs[i] == pairs[1..][i - 1];
      forall code | code in m ensures exists i :: 0 <= i < |pairs| && pairs[i].0 == code {
        if code != pairs[0].0 {
          var i :| 0 <= i < |pairs[1..]| && pairs[1..][i].0 == code;
          assert pairs[i + 1].0 == code;
        }
      }
      m
  }

  /** With distinct codes, the dict has one entry per pair and maps each code to its name. */
  lemma {:induction false} ToMapDistinct(pairs: seq<(string, string)>)
    requires Distinct(Codes(pairs))
    ensures |ToMap(pairs)| == |pairs|
    ensures forall i :: 0 <= i < |pairs| ==> ToMap(pairs)[pairs[i].0] == pairs[i].1
    decreases |pairs|
  {
    if pairs != [] {
      DistinctTail(pairs);
      ToMapDistinct(pairs[1..]);
      var rest := ToMap(pairs[1..]);
      assert pairs[0].0 !in rest;
      assert ToMap(pairs) == rest[pairs[0].0 := pairs[0].1];
      forall i | 1 <= i < |pairs| ensures ToMap(pairs)[pairs[i].0] == pairs[i].1 {
        assert pairs[i] == pairs[1..][i - 1];
      }
    }
  }

  /** Dropping the first pair keeps the codes distinct, and no later code equals the first. */
  lemma DistinctTail(pairs: seq<(string, string)>)
    requires pairs != [] && Distinct(Codes(pairs))
    ensures Distinct(Codes(pairs[1..]))
    ensures forall i :: 1 <= i < |pairs| ==> pairs[i].0 != pairs[0].0
  {
    var cs, ts := Codes(pairs), Codes(pairs[1..]);
    forall i, j | 0 <= i < j < |ts| ensures ts[i] != ts[j] {
      assert ts[i] == cs[i + 1] && ts[j] == cs[j + 1];
    }
    forall i | 1 <= i < |pairs| ensures pairs[i].0 != pairs[0].0 {
      assert cs[0] != cs[i];
    }
  }

  /** Alphabetical order of codes by their first two characters. */
  predicate Before(a: string, b: string) {
    |a| >= 2 && |b| >= 2 && (a[0] < b[0] || (a[0] == b[0] && a[1] < b[1]))
  }

  lemma BeforeTransitive(a: string, b: string, c: string)
    requires Before(a, b) && Before(b, c)
    ensures Before(a, c)
  {
  }

  /** The catalog's indices listed in alphabetical order of their codes. */
  const Alphabetical: seq<nat> := [11, 20, 12, 4, 0, 2, 3, 17, 1, 26, 5, 8, 16, 9, 15, 27, 23, 21, 19, 18, 6, 7, 22, 13, 14, 24, 28, 25, 10]

  /** The position of each catalog index in `Alphabetical`. */
  const Position: seq<nat> := [4, 8, 5, 6, 3, 10, 20, 21, 11, 13, 28, 0, 2, 23, 24, 14, 12, 7, 19, 18, 1, 17, 22, 16, 25, 27, 9, 15, 26]

  /** Codes listed in order, each before the next, are each before all later ones. */
  lemma {:induction false} OrderedFar(order: seq<nat>, codes: seq<string>, i: nat, j: nat)
    requires forall k :: 0 <= k < |order| ==> order[k] < |codes|
    requires forall k :: 0 <= k < |order| - 1 ==> Before(codes[order[k]], codes[order[k + 1]])
    requires i < j < |order|
    ensures Before(codes[order[i]], codes[order[j]])
    decreases j - i
  {
    if i + 1 < j {
      OrderedFar(order, codes, i + 1, j);
      BeforeTransitive(codes[order[i]], codes[order[i + 1]], codes[order[j]]);
    }
  }

  /**
    The codes of a list of pairs are distinct when some listing of their indices
    is in strictly increasing alphabetical order and every index has its place in
    that listing.
   */
  lemma DistinctByOrder(pairs: seq<(string, string)>, order: seq<nat>, position: seq<nat>)
    requires |position| == |pairs|
    requires forall k :: 0 <= k < |order| ==> order[k] < |pairs|
    requires forall k :: 0 <= k < |order| - 1 ==> Before(pairs[order[k]].0, pairs[order[k + 1]].0)
    requires forall i :: 0 <= i < |pairs| ==> position[i] < |order| && order[position[i]] == i
    ensures Distinct(Codes(pairs))
  {
    var codes := Codes(pairs);
    assert forall k :: 0 <= k < |order| - 1 ==> Before(codes[order[k]], codes[order[k + 1]]);
    forall i, j | 0 <= i < j < |codes| ensures codes[i] != codes[j] {
      var a, b := position[i], position[j];
      if a < b {
        OrderedFar(order, codes, a, b);
      } else {
        OrderedFar(order, codes, b, a);
      }
    }
  }

  /** The catalog lists each code once. */
  lemma CatalogCodesDistinct()
    ensures Distinct(Codes(Catalog))
  {
    CatalogIndices();
    CatalogOrdered();
    CatalogPositions();
    DistinctByOrder(Catalog, Alphabetical, Position);
  }

  lemma CatalogIndices()
    ensures forall k :: 0 <= k < |Alphabetical| ==> Alphabetical[k] < |Catalog|
  {
    CatalogSize();
    AlphabeticalBelow();
  }

  lemma AlphabeticalBelow()
    ensures |Alphabetical| == 29
    ensures forall k :: 0 <= k < 29 ==> Alphabetical[k] < 29
  {
  }

  /**
    * The four quarter lemmas check seven neighbouring pairs each. The empty
    * `if k == …` branches in them are only a case split: they make the solver
    * evaluate one literal index at a time.
    */
  lemma CatalogOrdered()
    ensures forall k :: 0 <= k < |Alphabetical| - 1 ==>
              Before(Catalog[Alphabetical[k]].0, Catalog[Alphabetical[k + 1]].0)
  {
    CatalogOrderedFirstQuarter();
    CatalogOrderedSecondQuarter();
    CatalogOrderedThirdQuarter();
    CatalogOrderedFourthQuarter();
  }

  lemma CatalogOrderedFirstQuarter()
    ensures forall k :: 0 <= k < 7 ==> Before(Catalog[Alphabetical[k]].0, Catalog[Alphabetical[k + 1]].0)
  {
    forall k | 0 <= k < 7 ensures Before(Catalog[Alphabetical[k]].0, Catalog[Alphabetical[k + 1]].0) {
      if k == 0 {
      } else if k == 1 {
      } else if k == 2 {
      } else if k == 3 {
      } else if k == 4 {
      } else if k == 5 {
      }
    }
  }

  lemma CatalogOrderedSecondQuarter()
    ensures forall k :: 7 <= k < 14 ==> Before(Catalog[Alphabetical[k]].0, Catalog[Alphabetical[k + 1]].0)
  {
    forall k | 7 <= k < 14 ensures Before(Catalog[Alphabetical[k]].0, Catalog[Alphabetical[k + 1]].0) {
      if k == 7 {
      } else if k == 8 {
      } else if k == 9 {
      } else if k == 10 {
      } else if k == 11 {
      } else if k == 12 {
      }
    }
  }

  lemma CatalogOrderedThirdQuarter()
    ensures forall k :: 14 <= k < 21 ==> Before(Catalog[Alphabetical[k]].0, Catalog[Alphabetical[k + 1]].0)
  {
    forall k | 14 <= k < 21 ensures Before(Catalog[Alphabetical[k]].0, Catalog[Alphabetical[k + 1]].0) {
      if k == 14 {
      } else if k == 15 {
      } else if k == 16 {
      } else if k == 17 {
      } else if k == 18 {
      } else if k == 19 {
      }
    }
  }

  lemma CatalogOrderedFourthQuarter()
    ensures forall k :: 21 <= k < 28 ==> Before(Catalog[Alphabetical[k]].0, Catalog[Alphabetical[k + 1]].0)
  {
    forall k | 21 <= k < 28 ensures Before(Catalog[Alphabetical[k]].0, Catalog[Alphabetical[k + 1]].0) {
      if k == 21 {
      } else if k == 22 {
      } else if k == 23 {
      } else if k == 24 {
      } else if k == 25 {
      } else if k == 26 {
      }
    }
  }

  lemma CatalogPositions()
    ensures |Position| == |Catalog|
    ensures forall i :: 0 <= i < |Catalog| ==> Position[i] < |Alphabetical| && Alphabetical[Position[i]] == i
  {
  }

  /** `m` is the dict display of `pairs`: one entry per pair, and no other code. */
  predicate Tabulates(m: map<string, string>, pairs: seq<(string, string)>) {
    && |m| == |pairs|
    && (forall i :: 0 <= i < |pairs| ==> pairs[i].0 in m && m[pairs[i].0] == pairs[i].1)
    && (forall code :: code in m ==> exists i :: 0 <= i < |pairs| && pairs[i].0 == code)
  }

  /**
    `get_supported_languages()`: the fixed dict of 29 language codes with their
    English names, independent of any input.
   */
  function SupportedLanguages(): (m: map<string, string>)
    ensures |m| == 29
    ensures Tabulates(m, Catalog)
  {
    CatalogCodesDistinct();
    CatalogSize();
    DistinctTabulates(Catalog);
    ToMap(Catalog)
  }

  /** With distinct codes, the dict display of `pairs` tabulates them. */
  lemma DistinctTabulates(pairs: seq<(string, string)>)
    requires Distinct(Codes(pairs))
    ensures Tabulates(ToMap(pairs), pairs)
  {
    ToMapDistinct(pairs);
  }

  lemma CatalogSize()
    ensures |Catalog| == 29
  {
  }

  /** English, the default target, and Hindi are offered under their usual codes. */
  lemma CatalogHasDashboardLanguages()
    ensures SupportedLanguages()["en"] == "English"
    ensures SupportedLanguages()["hi"] == "Hindi"
  {
    assert Catalog[0] == ("en", "English") && Catalog[1] == ("hi", "Hindi");
  }
}
