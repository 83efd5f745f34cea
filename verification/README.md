# AgriGuide core, modelled in Dafny

AgriGuide is a farmer-facing Django application. This project models its decision logic and failure handling:

- **Crop recommendation engine** (`get_crop_recommendation`, module `CropEngine`).
  - Seven soil and weather fields are read with `dict.get(key, default)` and converted with `float()`.
  - A failed conversion anywhere collapses the whole call to the sentinel crop "Unable to determine", with the error text in the description.
  - Otherwise an ordered, first-match-wins table of strict thresholds picks Rice, Wheat, Corn, Tomatoes or Mixed Vegetables.
- **Chat responder** (`get_agriculture_response`, module `Assistant`).
  - The generative backend is asked first. A non-blank reply is returned stripped.
  - In every other case the lower-cased message is routed to one of five canned answers, or to the welcome text. Routing tests five keyword lists in a fixed order with substring containment.
  - When the fallback runs, a message that is not a string ends in the apology text.
- **Translation adapter** (`TranslationService`, module `Translation`).
  - Blank text is echoed back without calling the backend.
  - Otherwise there are at most three attempts, with pauses of 0.2, 0.4 and 0.6 seconds after failures. The first success wins.
  - When every attempt fails, the original text comes back with `success` false and the last error's text.
  - The 29-language catalog has distinct codes.
- **JSON endpoints** (`core/views.py`, module `Api`).
  - On the chat, crop and translation endpoints, a method other than POST gets 405. An unreadable body, or a body that is not a JSON object, gets 500 with the exception text.
  - A missing or falsy `message` on the chat endpoint, or `text` on the translation endpoint, gets 400. The crop endpoint requires no field.
  - The languages endpoint answers 200 with the catalog to any method and never reads the body.
  - The defaults are "en" for the chat language, "en" for the translation target and "auto" for the translation source.
  - The crop endpoint always passes all seven keys, with `None` for absent ones. So the engine's own defaults never apply over HTTP, and a missing field yields the sentinel.
- **Cookie reader** (`getCookie` in the dashboard script, module `Cookies`).
  - The cookie string is split on ';' and each entry is trimmed.
  - The first entry that starts with exactly `name=` wins, and its remainder is URI-decoded.

Supporting modules:

- `Wrappers` holds `Option` and `Result`.
- `Json` holds the Python value a request body decodes to, Python truthiness, type names and `AttributeError` texts.
- `Strings` holds ASCII `lower`, `strip` over Python's and JavaScript's whitespace sets, `repr` of a string, substring containment, and `split`/`join` with their round-trip lemmas.
- `AssistantExamples` holds worked routing examples.

External services are parameters:

- The generative backend is `Assistant.Backend`: unavailable, or a function from prompt to outcome (an exception, or a reply whose text may be missing).
- The translation backend is a function from attempt number to outcome.
- Python's number grammar for non-blank strings is an abstract `string -> Option<real>`.
- `decodeURIComponent` is an abstract `string -> Option<string>`. `None` stands for the `URIError` it throws.

Two behaviours of the code are worth stating on their own:

- A field that fails conversion does not fall back to that field's default. The whole call returns the sentinel (core/gemini_api.py:313-355).
- After the third failed translation attempt the service still sleeps 0.6 seconds before giving up. The worst-case trace is therefore 0.2 + 0.4 + 0.6 seconds (core/translation_service.py:41-61).

## Model

| member | source | states |
|---|---|---|
| CropEngine.ToFloat | core/gemini_api.py:315-321 | `float(v)`: floats convert exactly; `True` and `False` give 1.0 and 0.0; ints convert exactly below 2^1024 − 2^970 in magnitude and fail with an overflow error from there on; `None`, lists and dicts fail with a type error naming their type; strings that are empty or all Python whitespace fail with a value error; any other string converts to the number the grammar reads from it, and fails with a value error carrying that string when the grammar reads none |
| CropEngine.HugeNitrogenIsUndetermined | core/gemini_api.py:315-355 | an integer nitrogen too large for a float gives "Unable to determine" with the text "int too large to convert to float" |
| CropEngine.ConvertAll | core/gemini_api.py:315-321 | converting the fields in order either yields one value per field, each that field's conversion, or the error of the first field that fails, all earlier ones having converted |
| CropEngine.ConvertAllFields | core/gemini_api.py:315-321 | the seven conversions all succeed exactly when every field converts, and then give the reading's values |
| CropEngine.FirstMatch | core/gemini_api.py:324-348 | an ordered rule list yields the crop of the first rule that holds, and the fallback when none holds |
| CropEngine.Classify | core/gemini_api.py:324-348 | each crop is chosen exactly when its own strict condition holds and no earlier one does (Rice, then Wheat, Corn, Tomatoes) |
| CropEngine.Recommend | core/gemini_api.py:303-355 | never fails; the crop is one of the six names; "Unable to determine" exactly when some field fails to convert; otherwise the advice of the rule table on the converted reading |
| CropEngine.RecommendFailure | core/gemini_api.py:315-355 | when a field fails to convert, the description is the fixed prefix followed by the first failing field's error text, all earlier fields having converted |
| CropEngine.EmptyInputGivesMixedVegetables | core/gemini_api.py:315-348 | an empty dict takes the defaults 0, 0, 0, 25, 50, 7, 100 and gets "Mixed Vegetables" |
| CropEngine.RiceTakesPriorityOverTomatoes | core/gemini_api.py:324-343 | temperature 30, humidity 70, rainfall 200 and pH 6 satisfy both the rice and the tomato rule, and rice wins |
| CropEngine.StrictThresholds | core/gemini_api.py:324-343 | a temperature of exactly 25 never gives rice and a pH of exactly 7 never gives tomatoes |
| CropEngine.PotassiumNeverDecides | core/gemini_api.py:317-355 | replacing a convertible potassium value by another convertible one never changes the recommendation |
| CropEngine.SameReadingExceptPotassium | core/gemini_api.py:317-348 | two convertible inputs that agree on all fields but potassium get the same crop |
| CropEngine.FirstFailureAgrees | core/gemini_api.py:315-355 | an input that fails conversion keeps the same first failure, and so the same description, when only its convertible potassium changes |
| CropEngine.SameConversions | core/gemini_api.py:315-321 | inputs whose seven fields convert alike get the same recommendation; no other key is read |
| CropEngine.ConvertAllAgrees | core/gemini_api.py:315-321 | the sequential conversion depends only on the per-field conversions |
| Assistant.MentionsAny | core/gemini_api.py:102 | `any(word in text for word in words)` holds exactly when some keyword is a substring of the text |
| Assistant.Dispatch | core/gemini_api.py:102-263 | the category of the first topic with a mentioned keyword, and welcome when there is none |
| Assistant.DispatchTopics | core/gemini_api.py:102-263 | the first-match dispatch over the five topics in order is the `if`/`elif` chain crop, soil, water, pest, fertilizer, else welcome |
| Assistant.RouteIsFirstMatchingTopic | core/gemini_api.py:99-263 | routing of a message picks crop, soil, water, pest or fertilizer exactly when that list matches the lower-cased message and no earlier list does |
| Assistant.RouteIgnoresCase | core/gemini_api.py:99 | a message and its lower-cased form are routed alike |
| Assistant.NutrientNeverRoutesToFertilizer | core/gemini_api.py:131-225 | a message containing "nutrient" is routed to crop or soil, never to fertilizer, because soil is tested first |
| Assistant.RouteFromMentions | core/gemini_api.py:99-263 | a lower-case message that mentions topic n and no earlier topic is routed to topic n |
| Assistant.NoneMentioned | core/gemini_api.py:102-225 | no keyword of a list occurs in a text lacking one character of each keyword |
| Assistant.LanguageLabel | core/gemini_api.py:83 | the prompt's language label is "English" for "en" and the requested code otherwise |
| Assistant.Respond | core/gemini_api.py:54-99 | a generated reply exactly when the backend produced non-blank text, and then that text stripped; otherwise the canned answer the keyword routing picks for a string message, the apology for any other message; with no backend, always the canned answer or the apology |
| AssistantExamples.PhoneRoutesToSoil | core/gemini_api.py:131 | "phone" is routed to soil because "ph" is a soil keyword and matching is by substring |
| AssistantExamples.NutrientRoutesToSoil | core/gemini_api.py:131-225 | "Nutrient", a soil and a fertilizer keyword, is routed to soil |
| AssistantExamples.FertilizerRoutesToFertilizer | core/gemini_api.py:225 | "fertilizer" is routed to the fertilizer answer |
| AssistantExamples.GreetingGetsWelcome | core/gemini_api.py:262-263 | "hi" mentions no keyword and gets the welcome answer |
| Translation.FirstTranslated | core/translation_service.py:41-54 | the first attempt, among the three, that succeeds, with all earlier ones failed; none when all three fail |
| Translation.Retry | core/translation_service.py:39-61 | the loop makes one call per attempt up to the first success or three failures, pausing 0.2·(k+1) seconds after failure k, and keeps the last failure's text |
| Translation.Translate | core/translation_service.py:17-72 | falsy or whitespace text is echoed with success and no call; other non-strings fail with the `strip` attribute error and no call; otherwise the first successful attempt's text and detected source (or the requested source), or, after three failures, the original text with the last error; the target is always the requested one |
| Translation.WorstCaseDelay | core/translation_service.py:57-58 | three failures pause 0.2, 0.4 and 0.6 seconds, 1.2 seconds in all |
| Translation.ToMapDistinct | core/translation_service.py:81-111 | a dict display with distinct codes has one entry per pair, each code mapped to its name |
| Translation.CatalogCodesDistinct | core/translation_service.py:81-111 | no language code is listed twice |
| Translation.SupportedLanguages | core/translation_service.py:74-111 | the catalog has exactly 29 entries, each listed code maps to its listed name, and no other code is present |
| Translation.CatalogHasDashboardLanguages | core/translation_service.py:82-83 | "en" maps to "English" and "hi" to "Hindi" |
| Api.Fields | core/views.py:64-65 | the body's fields, or the exception text: the JSON error, or the `get` attribute error of a non-object document |
| Api.ChatApi | core/views.py:60-78 | 405 for non-POST; 500 with the exception text; 400 "No message provided" for a missing or falsy message; otherwise 200 with the assistant's reply in the requested language, "en" by default |
| Api.CropInput | core/views.py:87-95 | the engine's input holds exactly the seven keys, each the request's value or `None` |
| Api.CropApi | core/views.py:80-104 | 405 for non-POST; 500 with the exception text; otherwise 200 with the engine's recommendation for the seven-key input |
| Api.MissingFieldIsUndetermined | core/views.py:87-100 | a request lacking any of the seven fields gets 200 and "Unable to determine" |
| Api.CompleteRequestUsesItsFields | core/views.py:87-98 | a request carrying all seven fields gets the recommendation the engine gives its own object |
| Api.TranslationApi | core/views.py:134-158 | 405 for non-POST; 500 with the exception text; 400 "No text provided" exactly for a missing or falsy text; otherwise 200 with a payload that is the service's answer for that text, target ("en" by default) and source ("auto" by default), even on failure: the first successful attempt's text and source, the echo with the last error after three failures, the echo for whitespace text, and the `strip` attribute error for a text that is not a string |
| Api.LanguagesApi | core/views.py:160-166 | 200 with the 29-entry catalog for any method |
| Cookies.FirstNamed | core/static/core/js/dashboard.js:224-229 | the first entry whose trimmed text starts with `name=`, all earlier ones not doing so |
| Cookies.RawValue | core/static/core/js/dashboard.js:227 | the trimmed entry is `name=` followed by the raw value |
| Cookies.GetCookie | core/static/core/js/dashboard.js:220-233 | the loop returns the first named entry's decoded value, and `null` exactly when the cookie string is empty or no entry is named |
| Cookies.LongerNameDoesNotMatch | core/static/core/js/dashboard.js:225-226 | an entry `other=value` whose name only starts with the requested name, such as "csrftoken" for "csrf", is not named by it |
| Cookies.SetThenGet | core/static/core/js/dashboard.js:220-233 | the value of a leading `name=value` entry without ';' or surrounding spaces is found again, whatever entries follow |
| Cookies.EntryNamed | core/static/core/js/dashboard.js:224-227 | an entry `name=value` without surrounding spaces matches `name` and holds `value` |
| Strings.StripSpec | core/gemini_api.py:91-93 | Python's `strip()` and JavaScript's `trim()`, each over its own whitespace set: the middle of the string with whitespace removed at both ends, empty exactly for all-whitespace strings |
| Strings.Lower | core/gemini_api.py:99 | `lower()`: each ASCII capital replaced by its small letter, the rest unchanged |
| Strings.ContainsSpec | core/gemini_api.py:102 | `w in s` holds exactly when `w` occurs in `s` at some position |
| Strings.Split | core/static/core/js/dashboard.js:223 | `split(';')` gives at least one piece and no piece contains the separator |
| Strings.JoinSplit | core/static/core/js/dashboard.js:223 | joining the pieces of a split with the separator restores the string |
| Strings.SplitJoin | core/static/core/js/dashboard.js:223 | splitting a join of separator-free pieces gives back those pieces |
| Strings.Repr | core/gemini_api.py:315-321 | `repr` of a string, as `float()` quotes it in its error: the escaped text between quotes, single quotes unless the text holds a single quote and no double quote |
| Strings.EscapePlain | core/gemini_api.py:315-321 | escaping leaves a string unchanged exactly when none of its characters needs an escape |
| Strings.ReprPlain | core/gemini_api.py:315-321 | a string with nothing to escape is shown between single quotes as it is |
| Strings.ReprOfTab | core/gemini_api.py:315-321 | a tab is shown as `'\t'` |
| Strings.ReprOfApostrophe | core/gemini_api.py:315-321 | "it's" is shown between double quotes |

## Left out

- Network calls to the generative model and to the translation service, and the import-time model and key setup (core/gemini_api.py:4-41, core/translation_service.py:12-15). They are abstract parameters: a backend that is unavailable or answers a prompt, and a per-attempt outcome function.
- `time.sleep` and logging. Pauses are recorded as a list of seconds; real time is not modelled.
- Python's `float()` grammar for non-blank strings, NaN and infinities, and IEEE rounding. Conversion of non-blank strings is an abstract `parse` function, and numbers are exact reals.
- Unicode case mapping. `lower` is modelled over ASCII.
- Strings.Repr: characters above U+00FF are shown as they are, while Python escapes the non-printable ones among them.
- CropEngine.ToFloat: an integer below the overflow bound converts to the exact real, not to the nearest double.
- `decodeURIComponent`. It is an abstract `decode` function.
- The full canned chat texts and the system prompt beyond its language label. They are the `Assistant.Category` tags and the `Prompt` pair.
- `@login_required` on the chat, crop and translation endpoints. Unauthenticated requests are redirected before the handler runs, and the model starts inside the handler.
- The text of `json.loads` errors. An unreadable body carries its error text as given.
- Django's `JsonResponse` serialization, and the order of keys in the returned dicts.
- The other views (welcome, login, registration, logout, dashboard, superuser login, database page), the superuser management command, URL routing and all DOM code in the dashboard script. These are rendering, session and ORM glue.
- Assistant.Respond: a backend reply whose `text` attribute is present but not a string is not modelled. Replies carry an optional string.
- Translation.ToMapDistinct: on a repeated code the model's dict keeps the earlier pair, while a Python dict display keeps the later one. The lemma only covers distinct codes, which is what the catalog has.
- Cookies.GetCookie: `document.cookie` being `undefined` is not modelled. The cookie string is always a string, and the empty string yields `null` as in the source.
