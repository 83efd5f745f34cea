/**
  The JSON endpoints of the web application (core/views.py): chat, crop
  prediction, translation and the list of supported languages.

  The chat, crop and translation handlers parse the request body as JSON, read
  its fields with `dict.get`, call the service and wrap the result in a JSON
  response. For those three, a method other than POST gets 405, and any exception
  raised on the way (an unreadable body, a body that is not a JSON object) gets
  500 with the exception's text. Chat requires a truthy `message` and translation
  a truthy `text`, and a falsy or missing one gets 400; the crop handler requires
  no field. The languages handler answers 200 to any method and never reads the
  body.
 */
module Api {
  import opened Wrappers
  import opened Json
  import CropEngine
  import Assistant
  import Translation

  /** The request body: JSON that `json.loads` rejects (with its error text), or a decoded document. */
  datatype Body = Unreadable(error: string) | Document(doc: Value)

  /** The parts of a Django request the handlers look at. */
  datatype Request = Request(verb: string, body: Body)

  /** The JSON object a handler answers with. */
  datatype Payload =
    | ErrorPayload(error: string)                          // {"error": ...}
    | ChatPayload(response: Assistant.Reply)               // {"response": ...}
    | CropPayload(recommendation: CropEngine.Recommendation)
    | TranslationPayload(result: Translation.TranslationResult)
    | LanguagesPayload(languages: map<string, string>)     // {"languages": {...}}

  datatype Response = Response(status: int, payload: Payload)

  const OnlyPost: string := "Only POST requests are allowed"

  /** The answer to any method other than POST. */
  const NotAllowed: Response := Response(405, ErrorPayload(OnlyPost))

  /**
    `json.loads(request.body)` followed by the first `data.get`: the fields of a
    JSON object, or the text of the exception that turns into a 500.
   */
  function Fields(body: Body): (r: Result<map<string, Value>, string>)
    ensures body.Unreadable? ==> r == Failure(body.error)
    ensures body.Document? && body.doc.Obj? ==> r == Success(body.doc.fields)
    ensures body.Document? && !body.doc.Obj? ==> r == Failure(NoAttribute(body.doc, "get"))
  {
    match body
    case Unreadable(e) => Failure(e)
    case Document(d) => if d.Obj? then Success(d.fields) else Failure(NoAttribute(d, "get"))
  }

  /**
    `chatbot_api`. A POST whose object has a truthy "message" is answered with the
    assistant's reply to that message in the requested language ("en" when absent).
   */
  function ChatApi(request: Request, backend: Assistant.Backend): (r: Response)
    ensures request.verb != "POST" ==> r == NotAllowed
    ensures request.verb == "POST" && Fields(request.body).Failure? ==>
              r == Response(500, ErrorPayload(Fields(request.body).error))
    ensures request.verb == "POST" && Fields(request.body).Success? ==>
              var fields := Fields(request.body).value;
              if "message" !in fields || !Truthy(fields["message"]) then r == Response(400, ErrorPayload("No message provided"))
              else r == Response(200, ChatPayload(Assistant.Respond(fields["message"], Get(fields, "language", Str("en")), backend)))
    ensures r.status in {200, 400, 405, 500}
  {
    if request.verb != "POST" then NotAllowed
    else match Fields(request.body)
      case Failure(e) => Response(500, ErrorPayload(e))
      case Success(fields) =>
        var message := Get(fields, "message", Str(""));
        var language := Get(fields, "language", Str("en"));
        if !Truthy(message) then Response(400, ErrorPayload("No message provided"))
        else Response(200, ChatPayload(Assistant.Respond(message, language, backend)))
  }

  /**
    The dict `crop_prediction_api` hands to the engine: all seven keys, each with
    the request's value or `None` when the request lacks it. No other key.
   */
  function CropInput(fields: map<string, Value>): (soil: map<string, Value>)
    ensures forall f: CropEngine.Field :: CropEngine.Key(f) in soil
    ensures forall f: CropEngine.Field :: soil[CropEngine.Key(f)] == Get(fields, CropEngine.Key(f), Null)
    ensures forall k :: k in soil ==> exists f: CropEngine.Field :: k == CropEngine.Key(f)
  {
    var soil := map[
      "nitrogen" := Get(fields, "nitrogen", Null),
      "phosphorus" := Get(fields, "phosphorus", Null),
      "potassium" := Get(fields, "potassium", Null),
      "temperature" := Get(fields, "temperature", Null),
      "humidity" := Get(fields, "humidity", Null),
      "ph" := Get(fields, "ph", Null),
      "rainfall" := Get(fields, "rainfall", Null)
    ];
    assert forall k :: k in soil ==> exists f: CropEngine.Field :: k == CropEngine.Key(f) by {
      forall k | k in soil ensures exists f: CropEngine.Field :: k == CropEngine.Key(f) {
        var f: CropEngine.Field :=
          if k == "nitrogen" then CropEngine.Nitrogen else if k == "phosphorus" then CropEngine.Phosphorus
          else if k == "potassium" then CropEngine.Potassium else if k == "temperature" then CropEngine.Temperature
          else if k == "humidity" then CropEngine.Humidity else if k == "ph" then CropEngine.Ph
          else CropEngine.Rainfall;
        assert k == CropEngine.Key(f);
      }
    }
    soil
  }

  /**
    `crop_prediction_api`. A POST whose body is a JSON object always gets 200 and
    the engine's recommendation for the seven fields it names.
   */
  function CropApi(request: Request, parse: string -> Option<real>): (r: Response)
    ensures request.verb != "POST" ==> r == NotAllowed
    ensures request.verb == "POST" && Fields(request.body).Failure? ==>
              r == Response(500, ErrorPayload(Fields(request.body).error))
    ensures request.verb == "POST" && Fields(request.body).Success? ==>
              r == Response(200, CropPayload(CropEngine.Recommend(CropInput(Fields(request.body).value), parse)))
  {
    if request.verb != "POST" then NotAllowed
    else match Fields(request.body)
      case Failure(e) => Response(500, ErrorPayload(e))
      case Success(fields) => Response(200, CropPayload(CropEngine.Recommend(CropInput(fields), parse)))
  }

  /**
    The engine's defaults never apply to a prediction request: a request that
    lacks any of the seven fields is answered "Unable to determine", with status 200.
   */
  lemma MissingFieldIsUndetermined(fields: map<string, Value>, f: CropEngine.Field, parse: string -> Option<real>)
    requires CropEngine.Key(f) !in fields
    ensures CropApi(Request("POST", Document(Obj(fields))), parse)
            == Response(200, CropPayload(CropEngine.Recommend(CropInput(fields), parse)))
    ensures CropEngine.Recommend(CropInput(fields), parse).crop == CropEngine.Undetermined
  {
    var soil := CropInput(fields);
    assert CropEngine.FieldValue(soil, f) == Null;
    assert CropEngine.Convert(soil, f, parse).Failure?;
  }

  /**
    A request carrying all seven fields gets the same recommendation as the engine
    would give for the request's object itself: extra keys are ignored.
   */
  lemma CompleteRequestUsesItsFields(fields: map<string, Value>, parse: string -> Option<real>)
    requires forall f: CropEngine.Field :: CropEngine.Key(f) in fields
    ensures CropEngine.Recommend(CropInput(fields), parse) == CropEngine.Recommend(fields, parse)
  {
    var soil := CropInput(fields);
    forall f: CropEngine.Field ensures CropEngine.Convert(soil, f, parse) == CropEngine.Convert(fields, f, parse) {
      assert CropEngine.FieldValue(soil, f) == CropEngine.FieldValue(fields, f);
    }
    CropEngine.SameConversions(fields, soil, parse);
  }

  /**
    `translation_api`. A POST whose object has a truthy "text" is answered 200 with
    the service's result, even when the translation failed; the target defaults to
    "en" and the source to "auto". Whitespace-only text passes the check here and
    is echoed back by the service.
   */
  method TranslationApi(request: Request, backend: nat -> Translation.Attempt) returns (r: Response)
    ensures request.verb != "POST" ==> r == NotAllowed
    ensures request.verb == "POST" && Fields(request.body).Failure? ==>
              r == Response(500, ErrorPayload(Fields(request.body).error))
    ensures request.verb == "POST" && Fields(request.body).Success? ==>
              var fields := Fields(request.body).value;
              && (!Truthy(Get(fields, "text", Str(""))) <==> r == Response(400, ErrorPayload("No text provided")))
              && (Truthy(Get(fields, "text", Str(""))) ==>
                    && r.status == 200 && r.payload.TranslationPayload?
                    && r.payload.result.original == fields["text"]
                    && Translation.Answers(fields["text"], Get(fields, "target_language", Str("en")),
                                           Get(fields, "source_language", Str("auto")), backend, r.payload.result))
  {
    if request.verb != "POST" {
      return NotAllowed;
    }
    match Fields(request.body)
    case Failure(e) =>
      r := Response(500, ErrorPayload(e));
    case Success(fields) =>
      var text := Get(fields, "text", Str(""));
      var target := Get(fields, "target_language", Str("en"));
      var source := Get(fields, "source_language", Str("auto"));
      if !Truthy(text) {
        r := Response(400, ErrorPayload("No text provided"));
      } else {
        var result, calls, delays := Translation.Translate(text, target, source, backend);
        r := Response(200, TranslationPayload(result));
      }
  }

  /** `get_supported_languages_api`: the catalog, with status 200, whatever the method. */
  function LanguagesApi(request: Request): (r: Response)
    ensures r.status == 200 && r.payload.LanguagesPayload?
    ensures |r.payload.languages| == 29
    ensures r.payload.languages == Translation.SupportedLanguages()
  {
    Response(200, LanguagesPayload(Translation.SupportedLanguages()))
  }
}
