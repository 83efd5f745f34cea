/**
  The conversational assistant (`get_agriculture_response` in core/gemini_api.py).

  It asks the generative backend once when that backend was set up at import time.
  A non-blank reply is returned stripped. Otherwise (no backend, an exception, or a
  blank reply) the message is lower-cased and routed to a canned answer by testing
  five keyword lists in a fixed order with substring containment.
 */
module Assistant {
  import opened Wrappers
  import opened Json
  import opened Strings

  /** The canned answers; each stands for one fixed text of the source. */
  datatype Category = Crop | Soil | Water | Pest | Fertilizer | Welcome

  const CropWords: seq<string> := ["crop", "plant", "seed", "cultivation"]
  const SoilWords: seq<string> := ["soil", "fertility", "nutrient", "ph"]
  const WaterWords: seq<string> := ["water", "irrigation", "drainage"]
  const PestWords: seq<string> := ["pest", "disease", "insect", "fungus"]
  const FertilizerWords: seq<string> := ["fertilizer", "nutrient", "compost", "manure"]

  /** The topics in the order they are tested, each with its keyword list. */
  const Topics: seq<(Category, seq<string>)> := [
    (Crop, CropWords), (Soil, SoilWords), (Water, WaterWords), (Pest, PestWords), (Fertilizer, FertilizerWords)
  ]

  /** Python's `any(word in text for word in words)`. */
  function MentionsAny(text: string, words: seq<string>): (b: bool)
    ensures b <==> exists i :: 0 <= i < |words| && Contains(text, words[i])
    decreases |words|
  {
    if words == [] then false
    else if Contains(text, words[0]) then true
    else
      var b := MentionsAny(text, words[1..]);
      assert forall i :: 1 <= i < |words| ==> words[i] == words[1..][i - 1];
      assert b ==> exists i :: 0 <= i < |words| && Contains(text, words[i]) by {
        if b {
          var i :| 0 <= i < |words[1..]| && Contains(text, words[1..][i]);
          assert Contains(text, words[i + 1]);
        }
      }
      b
  }

  /** The first topic, in the given order, that some keyword selects; `Welcome` when none does. */
  function Dispatch(text: string, topics: seq<(Category, seq<string>)>): (c: Category)
    ensures (forall i :: 0 <= i < |topics| ==> !MentionsAny(text, topics[i].1)) ==> c == Welcome
    ensures forall i :: (0 <= i < |topics| && MentionsAny(text, topics[i].1)
                         && forall j :: 0 <= j < i ==> !MentionsAny(text, topics[j].1)) ==> c == topics[i].0
    decreases |topics|
  {
    if topics == [] then Welcome
    else if MentionsAny(text, topics[0].1) then topics[0].0
    else
      var c := Dispatch(text, topics[1..]);
      assert forall i :: 1 <= i < |topics| ==> topics[i] == topics[1..][i - 1];
      c
  }

  /** The keyword routing of the offline responder: the message is lower-cased first. */
  function Route(message: string): Category {
    Dispatch(Lower(message), Topics)
  }

  /**
    Routing picks the first topic of crop, soil, water, pest, fertilizer whose list
    has a keyword inside the lower-cased message, and welcome when there is none.
   */
  lemma RouteIsFirstMatchingTopic(message: string)
    ensures var m := Lower(message);
      && (Route(message) == Crop <==> MentionsAny(m, CropWords))
      && (Route(message) == Soil <==> !MentionsAny(m, CropWords) && MentionsAny(m, SoilWords))
      && (Route(message) == Water <==> !MentionsAny(m, CropWords) && !MentionsAny(m, SoilWords)
                                       && MentionsAny(m, WaterWords))
      && (Route(message) == Pest <==> !MentionsAny(m, CropWords) && !MentionsAny(m, SoilWords)
                                      && !MentionsAny(m, WaterWords) && MentionsAny(m, PestWords))
      && (Route(message) == Fertilizer <==> !MentionsAny(m, CropWords) && !MentionsAny(m, SoilWords)
                                            && !MentionsAny(m, WaterWords) && !MentionsAny(m, PestWords)
                                            && MentionsAny(m, FertilizerWords))
  {
    DispatchTopics(Lower(message));
  }

  /** `Dispatch` over the five topics is the source's `if`/`elif` chain. */
  lemma DispatchTopics(m: string)
    ensures Dispatch(m, Topics) ==
      if MentionsAny(m, CropWords) then Crop
      else if MentionsAny(m, SoilWords) then Soil
      else if MentionsAny(m, WaterWords) then Water
      else if MentionsAny(m, PestWords) then Pest
      else if MentionsAny(m, FertilizerWords) then Fertilizer
      else Welcome
  {
    var t4: seq<(Category, seq<string>)> := [(Fertilizer, FertilizerWords)];
    var t3 := [(Pest, PestWords)] + t4;
    var t2 := [(Water, WaterWords)] + t3;
    var t1 := [(Soil, SoilWords)] + t2;
    assert Topics == [(Crop, CropWords)] + t1;
    DispatchStep(m, Crop, CropWords, t1);
    DispatchStep(m, Soil, SoilWords, t2);
    DispatchStep(m, Water, WaterWords, t3);
    DispatchStep(m, Pest, PestWords, t4);
    DispatchStep(m, Fertilizer, FertilizerWords, []);
  }

  /** One step of `Dispatch`: the first topic, then the rest. */
  lemma DispatchStep(text: string, c: Category, words: seq<string>, rest: seq<(Category, seq<string>)>)
    ensures Dispatch(text, [(c, words)] + rest) == if MentionsAny(text, words) then c else Dispatch(text, rest)
  {
    assert ([(c, words)] + rest)[1..] == rest;
  }

  /** Routing ignores case: a message and its lower-cased form go to the same answer. */
  lemma RouteIgnoresCase(message: string)
    ensures Route(Lower(message)) == Route(message)
  {
    LowerIdempotent(message);
  }

  /**
    "nutrient" is a soil keyword, and soil is tested before fertilizer, so a message
    mentioning it is routed to crop or soil and never to fertilizer.
   */
  lemma NutrientNeverRoutesToFertilizer(message: string)
    requires Contains(Lower(message), "nutrient")
    ensures Route(message) == Crop || Route(message) == Soil
  {
    RouteIsFirstMatchingTopic(message);
    assert SoilWords[2] == "nutrient";
  }

  /**
    A message without capitals is routed to topic `n` when it mentions a keyword of
    that topic and of no earlier one.
   */
  lemma RouteFromMentions(m: string, n: nat)
    requires IsLower(m) && n < |Topics|
    requires forall i :: 0 <= i < n ==> !MentionsAny(m, Topics[i].1)
    requires MentionsAny(m, Topics[n].1)
    ensures Route(m) == Topics[n].0
  {
    LowerIdempotent(m);
  }

  /** Keyword `i` of `words` has the character `missing[i]`, which `s` lacks. */
  predicate EachMissing(s: string, words: seq<string>, missing: string)
    decreases |words|
  {
    && |missing| == |words|
    && (words == [] || (missing[0] in words[0] && missing[0] !in s && EachMissing(s, words[1..], missing[1..])))
  }

  /** No keyword occurs in a text that lacks one character of each keyword. */
  lemma {:induction false} NoneMentioned(s: string, words: seq<string>, missing: string)
    requires EachMissing(s, words, missing)
    ensures !MentionsAny(s, words)
    decreases |words|
  {
    if words != [] {
      Absent(s, words[0], missing[0]);
      NoneMentioned(s, words[1..], missing[1..]);
    }
  }

  /** A keyword with a character the text lacks does not occur in it. */
  lemma Absent(s: string, w: string, c: char)
    requires c in w && c !in s
    ensures !Contains(s, w)
  {
    ContainsSpec(s, w);
    var k :| 0 <= k < |w| && w[k] == c;
    forall i ensures !OccursAt(s, w, i) {
      if 0 <= i && i + |w| <= |s| {
        assert s[i..i + |w|][k] == s[i + k];
      }
    }
  }

  /** What the backend was asked: the response-language label and the user's message. */
  datatype Prompt = Prompt(language: Value, question: Value)

  /** The outcome of one backend call: an exception, or a reply whose `text` may be missing. */
  datatype CallOutcome = Threw(error: string) | Answered(text: Option<string>)

  /** The backend as configured at import time: unavailable, or a function answering prompts. */
  datatype Backend = Unavailable | Available(call: Prompt -> CallOutcome)

  /** The reply: the backend's text, one of the canned answers, or the apology string. */
  datatype Reply = Generated(text: string) | Canned(topic: Category) | Apology

  /** The fixed apology returned when the responder itself raises. */
  const ApologyText: string :=
    "I'm sorry, I encountered an error processing your request. Please try again or contact support if the issue persists."

  /** The prompt's language label: "English" for "en", the requested code verbatim otherwise. */
  function LanguageLabel(language: Value): (shown: Value)
    ensures language == Str("en") ==> shown == Str("English")
    ensures language != Str("en") ==> shown == language
  {
    if language == Str("en") then Str("English") else language
  }

  function PromptFor(message: Value, language: Value): Prompt {
    Prompt(LanguageLabel(language), message)
  }

  /** The text the backend produced for this request, when it produced any at all. */
  function BackendText(message: Value, language: Value, backend: Backend): Option<string> {
    match backend
    case Unavailable => None
    case Available(call) =>
      match call(PromptFor(message, language))
      case Threw(_) => None
      case Answered(t) => Some(match t case Some(s) => s case None => "")
  }

  /**
    `get_agriculture_response(user_message, language)`. A non-blank backend text is
    returned stripped; in every other case the reply is the canned answer the keyword
    table picks for the message, or the apology when the message is not a string
    (its `.lower()` raises and the outer handler catches it). It never raises.
   */
  function Respond(message: Value, language: Value, backend: Backend): (r: Reply)
    ensures r.Generated? <==> BackendText(message, language, backend).Some?
                              && !AllSpace(BackendText(message, language, backend).value, Python)
    ensures r.Generated? ==> r.text == Strip(BackendText(message, language, backend).value, Python) && r.text != ""
    ensures r.Canned? <==> !r.Generated? && message.Str?
    ensures r.Canned? ==> r.topic == Route(message.s)
    ensures backend.Unavailable? ==> r == (if message.Str? then Canned(Route(message.s)) else Apology)
  {
    match BackendText(message, language, backend)
    case Some(text) =>
      StripSpec(text, Python);
      if Strip(text, Python) != "" then Generated(Strip(text, Python))
      else if message.Str? then Canned(Route(message.s))
      else Apology
    case None =>
      if message.Str? then Canned(Route(message.s))
      else Apology
  }
}
