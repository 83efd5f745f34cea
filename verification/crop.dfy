/**
  The crop recommendation engine (`get_crop_recommendation` in core/gemini_api.py).

  Seven fields are read from a dict with `dict.get(key, default)` and converted with
  Python's `float()`. If any conversion raises, the whole call returns the sentinel
  crop "Unable to determine" with the error text in the description. Otherwise an
  ordered, first-match-wins list of strict-threshold rules picks the crop.
 */
module CropEngine {
  import opened Wrappers
  import opened Json
  import Strings

  /** The seven inputs of the engine, in the order the source converts them. */
  datatype Field = Nitrogen | Phosphorus | Potassium | Temperature | Humidity | Ph | Rainfall

  const Fields: seq<Field> := [Nitrogen, Phosphorus, Potassium, Temperature, Humidity, Ph, Rainfall]

  /** The dict key of each field. */
  function Key(f: Field): string {
    match f
    case Nitrogen => "nitrogen"
    case Phosphorus => "phosphorus"
    case Potassium => "potassium"
    case Temperature => "temperature"
    case Humidity => "humidity"
    case Ph => "ph"
    case Rainfall => "rainfall"
  }

  /** The value `dict.get` falls back to when the key is absent (Python ints). */
  function Default(f: Field): Value {
    match f
    case Nitrogen => Int(0)
    case Phosphorus => Int(0)
    case Potassium => Int(0)
    case Temperature => Int(25)
    case Humidity => Int(50)
    case Ph => Int(7)
    case Rainfall => Int(100)
  }

  /** What `soil_data.get(key, default)` hands to `float()` for field `f`. */
  function FieldValue(data: map<string, Value>, f: Field): Value {
    Get(data, Key(f), Default(f))
  }

  /**
    Why `float(v)` raised: a value of the wrong type, a string that is not a
    number, or an int too large for a double.
   */
  datatype ConversionError = WrongType(typeName: string) | NotANumber(text: string) | TooLarge

  /**
    2^1024 - 2^970, written out: the least magnitude an int rounds to 2^1024 at
    when rounded to a double's 53 bits, half to even, so `float()` overflows.
   */
  const FloatOverflow: int := 0xffff_ffff_ffff_fc00_0000_0000_0000_0000_0000_0000_0000_0000_0000_0000_0000_0000_0000_0000_0000_0000_0000_0000_0000_0000_0000_0000_0000_0000_0000_0000_0000_0000_0000_0000_0000_0000_0000_0000_0000_0000_0000_0000_0000_0000_0000_0000_0000_0000_0000_0000_0000_0000_0000_0000_0000_0000_0000_0000_0000_0000_0000_0000_0000_0000

  /** The text of the exception, as `str(e)` renders it; the string is shown by its `repr`. */
  function ErrorText(e: ConversionError): string {
    match e
    case WrongType(t) => "float() argument must be a string or a real number, not '" + t + "'"
    case NotANumber(s) => "could not convert string to float: " + Strings.Repr(s)
    case TooLarge => "int too large to convert to float"
  }

  /**
    Python's `float(v)`. Booleans and ints below the overflow bound convert exactly;
    larger ints raise an overflow error; `None`, lists and dicts raise a type error;
    a string that is empty or all Python whitespace raises a value error; any other
    string is handed to the abstract number grammar `parse`.
   */
  function ToFloat(v: Value, parse: string -> Option<real>): (r: Result<real, ConversionError>)
    ensures (v.Null? || v.Arr? || v.Obj?) ==> r == Failure(WrongType(TypeName(v)))
    ensures v.Str? && Strings.AllSpace(v.s, Strings.Python) ==> r == Failure(NotANumber(v.s))
    ensures v.Str? && r.Failure? ==> r.error == NotANumber(v.s)
    ensures v.Int? && -FloatOverflow < v.i < FloatOverflow ==> r == Success(v.i as real)
    ensures v.Int? && !(-FloatOverflow < v.i < FloatOverflow) ==> r == Failure(TooLarge)
    ensures v.Float? ==> r == Success(v.f)
    ensures v.Bool? ==> r == Success(if v.b then 1.0 else 0.0)
    ensures v.Str? && !Strings.AllSpace(v.s, Strings.Python) ==>
              r == (match parse(v.s) case Some(x) => Success(x) case None => Failure(NotANumber(v.s)))
  {
    match v
    case Null => Failure(WrongType(TypeName(v)))
    case Bool(b) => Success(if b then 1.0 else 0.0)
    case Int(i) => if -FloatOverflow < i < FloatOverflow then Success(i as real) else Failure(TooLarge)
    case Float(f) => Success(f)
    case Str(s) =>
      Strings.StripSpec(s, Strings.Python);
      if Strings.Strip(s, Strings.Python) == "" then Failure(NotANumber(s))
      else (match parse(s) case Some(x) => Success(x) case None => Failure(NotANumber(s)))
    case Arr(_) => Failure(WrongType(TypeName(v)))
    case Obj(_) => Failure(WrongType(TypeName(v)))
  }

  /** The conversion of field `f` of `data`. */
  function Convert(data: map<string, Value>, f: Field, parse: string -> Option<real>): Result<real, ConversionError> {
    ToFloat(FieldValue(data, f), parse)
  }

  /**
    Converts the fields `fs` one after the other, stopping at the first one that
    fails. On success the values line up with `fs`; on failure the error is that of
    the first field whose conversion fails.
   */
  function ConvertAll(data: map<string, Value>, fs: seq<Field>, parse: string -> Option<real>): (r: Result<seq<real>, ConversionError>)
    ensures r.Success? ==> |r.value| == |fs| && forall i :: 0 <= i < |fs| ==> Convert(data, fs[i], parse) == Success(r.value[i])
    ensures r.Failure? ==> exists i :: 0 <= i < |fs| && Convert(data, fs[i], parse) == Failure(r.error)
                                       && forall j :: 0 <= j < i ==> Convert(data, fs[j], parse).Success?
    decreases |fs|
  {
    if fs == [] then Success([])
    else
      match Convert(data, fs[0], parse)
      case Failure(e) => Failure(e)
      case Success(x) =>
        match ConvertAll(data, fs[1..], parse)
        case Failure(e) =>
          assert exists i :: 0 <= i < |fs[1..]| && Convert(data, fs[1..][i], parse) == Failure(e)
                             && forall j :: 0 <= j < i ==> Convert(data, fs[1..][j], parse).Success?;
          var i :| 0 <= i < |fs[1..]| && Convert(data, fs[1..][i], parse) == Failure(e)
                   && forall j :: 0 <= j < i ==> Convert(data, fs[1..][j], parse).Success?;
          assert Convert(data, fs[i + 1], parse) == Failure(e);
          assert forall j :: 0 <= j < i + 1 ==> Convert(data, fs[j], parse).Success? by {
            forall j | 0 <= j < i + 1 ensures Convert(data, fs[j], parse).Success? {
              if j > 0 { assert fs[j] == fs[1..][j - 1]; }
            }
          }
          Failure(e)
        case Success(xs) => Success([x] + xs)
  }

  /** True when every one of the seven fields converts. */
  predicate Convertible(data: map<string, Value>, parse: string -> Option<real>) {
    forall f: Field :: Convert(data, f, parse).Success?
  }

  /** A fully converted soil and weather reading. */
  datatype Reading = Reading(nitrogen: real, phosphorus: real, potassium: real,
                             temperature: real, humidity: real, ph: real, rainfall: real)

  /** The reading made of the converted fields. */
  function ReadingOf(data: map<string, Value>, parse: string -> Option<real>): Reading
    requires Convertible(data, parse)
  {
    Reading(Convert(data, Nitrogen, parse).value, Convert(data, Phosphorus, parse).value,
            Convert(data, Potassium, parse).value, Convert(data, Temperature, parse).value,
            Convert(data, Humidity, parse).value, Convert(data, Ph, parse).value,
            Convert(data, Rainfall, parse).value)
  }

  datatype Crop = Rice | Wheat | Corn | Tomatoes | MixedVegetables

  /** One line of the decision table: a crop and the strict-threshold condition that selects it. */
  datatype Rule = Rule(crop: Crop, holds: Reading -> bool)

  /** The decision table, in priority order. */
  const Rules: seq<Rule> := [
    Rule(Rice, (x: Reading) => x.temperature > 25.0 && x.humidity > 60.0 && x.rainfall > 150.0),
    Rule(Wheat, (x: Reading) => x.temperature < 20.0 && x.ph > 6.5),
    Rule(Corn, (x: Reading) => x.nitrogen > 50.0 && x.phosphorus > 30.0),
    Rule(Tomatoes, (x: Reading) => x.temperature > 20.0 && x.ph < 7.0)
  ]

  /**
    First-match-wins evaluation of a rule list: the crop of the earliest rule whose
    condition holds, or `fallback` when none holds.
   */
  function FirstMatch(rules: seq<Rule>, x: Reading, fallback: Crop): (c: Crop)
    ensures (forall i :: 0 <= i < |rules| ==> !rules[i].holds(x)) ==> c == fallback
    ensures forall i :: 0 <= i < |rules| && rules[i].holds(x) && (forall j :: 0 <= j < i ==> !rules[j].holds(x))
                        ==> c == rules[i].crop
    decreases |rules|
  {
    if rules == [] then fallback
    else if rules[0].holds(x) then rules[0].crop
    else
      var c := FirstMatch(rules[1..], x, fallback);
      assert forall i :: 1 <= i < |rules| ==> rules[i] == rules[1..][i - 1];
      c
  }

  /**
    The rule table applied to a reading. Each crop is chosen exactly when its own
    condition holds and no earlier condition does; the thresholds are strict.
   */
  function Classify(x: Reading): (c: Crop)
    ensures c == Rice <==> x.temperature > 25.0 && x.humidity > 60.0 && x.rainfall > 150.0
    ensures c == Wheat <==> !(x.temperature > 25.0 && x.humidity > 60.0 && x.rainfall > 150.0)
                            && x.temperature < 20.0 && x.ph > 6.5
    ensures c == Corn <==> !(x.temperature > 25.0 && x.humidity > 60.0 && x.rainfall > 150.0)
                           && !(x.temperature < 20.0 && x.ph > 6.5)
                           && x.nitrogen > 50.0 && x.phosphorus > 30.0
    ensures c == Tomatoes <==> !(x.temperature > 25.0 && x.humidity > 60.0 && x.rainfall > 150.0)
                               && !(x.temperature < 20.0 && x.ph > 6.5)
                               && !(x.nitrogen > 50.0 && x.phosphorus > 30.0)
                               && x.temperature > 20.0 && x.ph < 7.0
  {
    var c := FirstMatch(Rules, x, MixedVegetables);
    assert Rules[0].crop == Rice && Rules[1].crop == Wheat && Rules[2].crop == Corn && Rules[3].crop == Tomatoes;
    c
  }

  /** The display name of a crop, as it appears in the response. */
  function Name(c: Crop): string {
    match c
    case Rice => "Rice"
    case Wheat => "Wheat"
    case Corn => "Corn"
    case Tomatoes => "Tomatoes"
    case MixedVegetables => "Mixed Vegetables"
  }

  /** The name reported when the input could not be converted. */
  const Undetermined: string := "Unable to determine"

  const FailurePrefix: string := "Could not process the data at this time. Error: "

  /** The `{crop, description}` dict the engine returns. */
  datatype Recommendation = Recommendation(crop: string, description: string)

  /** The fixed recommendation of each crop. */
  function Advice(c: Crop): Recommendation {
    match c
    case Rice => Recommendation(Name(c), "Rice is suitable for your conditions with high temperature, humidity, and rainfall. It thrives in warm, wet environments.")
    case Wheat => Recommendation(Name(c), "Wheat is suitable for cooler temperatures and slightly alkaline soil. Wheat grows well in temperate climates.")
    case Corn => Recommendation(Name(c), "Corn is ideal for your soil with high nitrogen and phosphorus content. It's a heavy feeder that benefits from rich soil.")
    case Tomatoes => Recommendation(Name(c), "Tomatoes are perfect for your warm climate and slightly acidic soil. They require good drainage and regular watering.")
    case MixedVegetables => Recommendation(Name(c), "Based on your soil conditions, a mix of vegetables like beans, peas, and leafy greens would be suitable. Consider soil amendments for optimal growth.")
  }

  /** Every name the engine can report. */
  const CropNames: set<string> := {"Rice", "Wheat", "Corn", "Tomatoes", "Mixed Vegetables", Undetermined}

  /**
    `get_crop_recommendation(soil_data)`. It never raises: the sentinel is returned
    exactly when some field fails to convert, carrying the first failure's text, and
    otherwise the advice is that of the rule table on the converted reading.
   */
  function Recommend(data: map<string, Value>, parse: string -> Option<real>): (r: Recommendation)
    ensures r.crop in CropNames
    ensures r.crop == Undetermined <==> !Convertible(data, parse)
    ensures Convertible(data, parse) ==> r == Advice(Classify(ReadingOf(data, parse)))
  {
    ConvertAllFields(data, parse);
    match ConvertAll(data, Fields, parse)
    case Failure(e) => Recommendation(Undetermined, FailurePrefix + ErrorText(e))
    case Success(vs) => Advice(Classify(Reading(vs[0], vs[1], vs[2], vs[3], vs[4], vs[5], vs[6])))
  }

  /**
    When some field fails to convert, the description is the fixed prefix followed
    by the text of the first failing field's error, every earlier field having
    converted.
   */
  lemma RecommendFailure(data: map<string, Value>, parse: string -> Option<real>)
    requires !Convertible(data, parse)
    ensures exists i :: 0 <= i < |Fields| && Convert(data, Fields[i], parse).Failure?
                        && Recommend(data, parse).description == FailurePrefix + ErrorText(Convert(data, Fields[i], parse).error)
                        && forall j :: 0 <= j < i ==> Convert(data, Fields[j], parse).Success?
  {
    ConvertAllFields(data, parse);
  }

  /**
    An int nitrogen value at or beyond the overflow bound makes `float()` raise,
    so the engine answers with the sentinel and the overflow message.
   */
  lemma HugeNitrogenIsUndetermined(data: map<string, Value>, parse: string -> Option<real>)
    requires "nitrogen" in data && data["nitrogen"].Int? && data["nitrogen"].i >= FloatOverflow
    ensures Recommend(data, parse) == Recommendation(Undetermined, FailurePrefix + "int too large to convert to float")
  {
    assert Convert(data, Fields[0], parse) == Failure(TooLarge);
  }

  /** Converting all of `Fields` succeeds exactly when the data is convertible, with the reading's values. */
  lemma ConvertAllFields(data: map<string, Value>, parse: string -> Option<real>)
    ensures ConvertAll(data, Fields, parse).Success? <==> Convertible(data, parse)
    ensures ConvertAll(data, Fields, parse).Success? ==>
              var vs := ConvertAll(data, Fields, parse).value;
              Reading(vs[0], vs[1], vs[2], vs[3], vs[4], vs[5], vs[6]) == ReadingOf(data, parse)
  {
    var r := ConvertAll(data, Fields, parse);
    if r.Success? {
      forall f: Field ensures Convert(data, f, parse).Success? {
        assert f == Fields[FieldIndex(f)];
      }
    } else {
      var i :| 0 <= i < |Fields| && Convert(data, Fields[i], parse) == Failure(r.error);
    }
  }

  /** The position of a field in `Fields`. */
  function FieldIndex(f: Field): (i: nat)
    ensures i < |Fields| && Fields[i] == f
  {
    match f
    case Nitrogen => 0
    case Phosphorus => 1
    case Potassium => 2
    case Temperature => 3
    case Humidity => 4
    case Ph => 5
    case Rainfall => 6
  }

  /** With every key absent, the defaults 0, 0, 0, 25, 50, 7, 100 lead to no rule and so to mixed vegetables. */
  lemma EmptyInputGivesMixedVegetables(parse: string -> Option<real>)
    ensures Recommend(map[], parse) == Advice(MixedVegetables)
  {
    var data: map<string, Value> := map[];
    assert Convertible(data, parse) by {
      forall f: Field ensures Convert(data, f, parse).Success? {
        assert FieldValue(data, f) == Default(f);
      }
    }
    var x := ReadingOf(data, parse);
    assert x.temperature == 25.0 && x.humidity == 50.0 && x.ph == 7.0 && x.rainfall == 100.0;
    assert x.nitrogen == 0.0 && x.phosphorus == 0.0;
  }

  /**
    Rules are tried in order: a warm, humid, rainy reading on acidic soil satisfies
    both the rice and the tomato condition, and rice wins.
   */
  lemma RiceTakesPriorityOverTomatoes(parse: string -> Option<real>)
    ensures var data := map["temperature" := Int(30), "humidity" := Int(70), "rainfall" := Int(200), "ph" := Int(6)];
            Convertible(data, parse) && Rules[3].holds(ReadingOf(data, parse))
            && Recommend(data, parse) == Advice(Rice)
  {
    var data := map["temperature" := Int(30), "humidity" := Int(70), "rainfall" := Int(200), "ph" := Int(6)];
    assert Convertible(data, parse) by {
      forall f: Field ensures Convert(data, f, parse).Success? {
        assert FieldValue(data, f).Int?;
      }
    }
    var x := ReadingOf(data, parse);
    assert FieldValue(data, Temperature) == Int(30) && FieldValue(data, Humidity) == Int(70);
    assert FieldValue(data, Rainfall) == Int(200) && FieldValue(data, Ph) == Int(6);
    assert x.temperature == 30.0 && x.humidity == 70.0 && x.ph == 6.0 && x.rainfall == 200.0;
  }

  /**
    The thresholds are strict: a temperature of exactly 25 never yields rice, and a
    pH of exactly 7 never yields tomatoes.
   */
  lemma StrictThresholds(data: map<string, Value>, parse: string -> Option<real>)
    requires Convertible(data, parse)
    ensures ReadingOf(data, parse).temperature == 25.0 ==> Recommend(data, parse).crop != "Rice"
    ensures ReadingOf(data, parse).ph == 7.0 ==> Recommend(data, parse).crop != "Tomatoes"
  {
  }

  /**
    Potassium is converted, so a bad potassium value yields the sentinel, but
    replacing one potassium value that converts by another that converts never
    changes the recommendation.
   */
  lemma PotassiumNeverDecides(data: map<string, Value>, parse: string -> Option<real>, k: Value)
    requires Convert(data, Potassium, parse).Success? && ToFloat(k, parse).Success?
    ensures Recommend(data[Key(Potassium) := k], parse) == Recommend(data, parse)
  {
    var data' := data[Key(Potassium) := k];
    assert Convert(data', Potassium, parse).Success?;
    forall f: Field | f != Potassium ensures Convert(data', f, parse) == Convert(data, f, parse) {
      assert FieldValue(data', f) == FieldValue(data, f);
    }
    if Convertible(data, parse) {
      SameReadingExceptPotassium(data, data', parse);
    } else {
      FirstFailureAgrees(data, data', parse);
    }
  }

  /**
    When two convertible inputs agree on every field but potassium they get the
    same recommendation.
   */
  lemma SameReadingExceptPotassium(data: map<string, Value>, data': map<string, Value>, parse: string -> Option<real>)
    requires forall f: Field :: f != Potassium ==> Convert(data', f, parse) == Convert(data, f, parse)
    requires Convert(data', Potassium, parse).Success?
    requires Convertible(data, parse)
    ensures Recommend(data', parse) == Recommend(data, parse)
  {
    assert Convertible(data', parse) by {
      forall f: Field ensures Convert(data', f, parse).Success? {
        if f != Potassium { assert Convert(data, f, parse).Success?; }
      }
    }
    var x, x' := ReadingOf(data, parse), ReadingOf(data', parse);
    assert x'.nitrogen == x.nitrogen by { assert Convert(data', Nitrogen, parse) == Convert(data, Nitrogen, parse); }
    assert x'.phosphorus == x.phosphorus by { assert Convert(data', Phosphorus, parse) == Convert(data, Phosphorus, parse); }
    assert x'.temperature == x.temperature by { assert Convert(data', Temperature, parse) == Convert(data, Temperature, parse); }
    assert x'.humidity == x.humidity by { assert Convert(data', Humidity, parse) == Convert(data, Humidity, parse); }
    assert x'.ph == x.ph by { assert Convert(data', Ph, parse) == Convert(data, Ph, parse); }
    assert x'.rainfall == x.rainfall by { assert Convert(data', Rainfall, parse) == Convert(data, Rainfall, parse); }
    ClassifyIgnoresPotassium(x, x');
  }

  /** The rule table never reads potassium. */
  lemma ClassifyIgnoresPotassium(x: Reading, x': Reading)
    requires x'.nitrogen == x.nitrogen && x'.phosphorus == x.phosphorus && x'.temperature == x.temperature
    requires x'.humidity == x.humidity && x'.ph == x.ph && x'.rainfall == x.rainfall
    ensures Classify(x') == Classify(x)
  {
  }

  /**
    When an input fails conversion, changing its potassium to a value that converts
    keeps the same first failure.
   */
  lemma FirstFailureAgrees(data: map<string, Value>, data': map<string, Value>, parse: string -> Option<real>)
    requires forall f: Field :: f != Potassium ==> Convert(data', f, parse) == Convert(data, f, parse)
    requires Convert(data, Potassium, parse).Success? && Convert(data', Potassium, parse).Success?
    requires !Convertible(data, parse)
    ensures Recommend(data', parse) == Recommend(data, parse)
  {
    ConvertAllFields(data, parse);
    FailureIgnoresPotassium(data, data', Fields, parse);
  }

  lemma {:induction false} FailureIgnoresPotassium(data: map<string, Value>, data': map<string, Value>, fs: seq<Field>, parse: string -> Option<real>)
    requires forall f: Field :: f != Potassium ==> Convert(data', f, parse) == Convert(data, f, parse)
    requires Convert(data, Potassium, parse).Success? && Convert(data', Potassium, parse).Success?
    requires ConvertAll(data, fs, parse).Failure?
    ensures ConvertAll(data', fs, parse) == ConvertAll(data, fs, parse)
    decreases |fs|
  {
    if Convert(data, fs[0], parse).Success? {
      assert Convert(data', fs[0], parse).Success?;
      FailureIgnoresPotassium(data, data', fs[1..], parse);
    } else {
      assert Convert(data', fs[0], parse) == Convert(data, fs[0], parse);
    }
  }

  /** Inputs whose seven fields convert alike get the same recommendation: no other key matters. */
  lemma SameConversions(data: map<string, Value>, data': map<string, Value>, parse: string -> Option<real>)
    requires forall f: Field :: Convert(data', f, parse) == Convert(data, f, parse)
    ensures Recommend(data', parse) == Recommend(data, parse)
  {
    ConvertAllAgrees(data, data', Fields, parse);
  }

  lemma {:induction false} ConvertAllAgrees(data: map<string, Value>, data': map<string, Value>, fs: seq<Field>, parse: string -> Option<real>)
    requires forall f: Field :: Convert(data', f, parse) == Convert(data, f, parse)
    ensures ConvertAll(data', fs, parse) == ConvertAll(data, fs, parse)
    decreases |fs|
  {
    if fs != [] {
      ConvertAllAgrees(data, data', fs[1..], parse);
    }
  }
}
