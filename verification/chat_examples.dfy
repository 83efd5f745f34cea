/**
  Worked routing examples for the offline responder, each proved from the
  first-matching-topic characterization and small absence arguments.
 */
module AssistantExamples {
  import opened Strings
  import opened Assistant

  /** Matching is by substring: "ph" inside "phone" selects the soil answer. */
  lemma PhoneRoutesToSoil()
    ensures Route("phone") == Soil
  {
    assert MentionsAny("phone", SoilWords) by {
      ContainsAt("phone", "ph", 0);
      assert SoilWords[3] == "ph";
    }
    NoneMentioned("phone", CropWords, "clsc");
    RouteFromMentions("phone", 1);
  }

  /** "Nutrient" is on both the soil and the fertilizer list; soil is tested first and wins. */
  lemma NutrientRoutesToSoil()
    ensures Route("Nutrient") == Soil
  {
    assert Lower("Nutrient") == "nutrient";
    assert MentionsAny("nutrient", SoilWords) by {
      ContainsAt("nutrient", "nutrient", 0);
      assert SoilWords[2] == "nutrient";
    }
    NoneMentioned("nutrient", CropWords, "cpsc");
    RouteIsFirstMatchingTopic("Nutrient");
  }

  /** A message whose only keyword is "fertilizer" gets the fertilizer answer. */
  lemma FertilizerRoutesToFertilizer()
    ensures Route("fertilizer") == Fertilizer
  {
    FertilizerMentions();
    RouteIsFirstMatchingTopic("fertilizer");
  }

  /** The keyword facts behind the fertilizer example, one per lemma to keep each proof small. */
  lemma FertilizerMentions()
    ensures Lower("fertilizer") == "fertilizer"
    ensures !MentionsAny("fertilizer", CropWords) && !MentionsAny("fertilizer", SoilWords)
    ensures !MentionsAny("fertilizer", WaterWords) && !MentionsAny("fertilizer", PestWords)
    ensures MentionsAny("fertilizer", FertilizerWords)
  {
    FertilizerIsLower();
    FertilizerNotCrop();
    FertilizerNotSoil();
    FertilizerNotWater();
    FertilizerNotPest();
    FertilizerIsFertilizer();
  }

  lemma FertilizerIsLower() ensures Lower("fertilizer") == "fertilizer" { LowerIdempotent("fertilizer"); }
  lemma FertilizerNotCrop() ensures !MentionsAny("fertilizer", CropWords) { NoneMentioned("fertilizer", CropWords, "cpsc"); }
  lemma FertilizerNotSoil() ensures !MentionsAny("fertilizer", SoilWords) { NoneMentioned("fertilizer", SoilWords, "syup"); }
  lemma FertilizerNotWater() ensures !MentionsAny("fertilizer", WaterWords) { NoneMentioned("fertilizer", WaterWords, "wgd"); }
  lemma FertilizerNotPest() ensures !MentionsAny("fertilizer", PestWords) { NoneMentioned("fertilizer", PestWords, "pdsu"); }
  lemma FertilizerIsFertilizer()
    ensures MentionsAny("fertilizer", FertilizerWords)
  {
    ContainsAt("fertilizer", "fertilizer", 0);
    assert FertilizerWords[0] == "fertilizer";
  }

  /** A message with no keyword at all gets the welcome answer. */
  lemma GreetingGetsWelcome()
    ensures Route("hi") == Welcome
  {
    GreetingMentions();
    RouteIsFirstMatchingTopic("hi");
  }

  /** "hi" has no keyword of any topic, one list per lemma to keep each proof small. */
  lemma GreetingMentions()
    ensures Lower("hi") == "hi"
    ensures !MentionsAny("hi", CropWords) && !MentionsAny("hi", SoilWords) && !MentionsAny("hi", WaterWords)
    ensures !MentionsAny("hi", PestWords) && !MentionsAny("hi", FertilizerWords)
  {
    GreetingIsLower();
    GreetingNotCrop();
    GreetingNotSoil();
    GreetingNotWater();
    GreetingNotPest();
    GreetingNotFertilizer();
  }

  lemma GreetingIsLower() ensures Lower("hi") == "hi" { LowerIdempotent("hi"); }
  lemma GreetingNotCrop() ensures !MentionsAny("hi", CropWords) { NoneMentioned("hi", CropWords, "cpsc"); }
  lemma GreetingNotSoil() ensures !MentionsAny("hi", SoilWords) { NoneMentioned("hi", SoilWords, "sfup"); }
  lemma GreetingNotWater() ensures !MentionsAny("hi", WaterWords) { NoneMentioned("hi", WaterWords, "wrd"); }
  lemma GreetingNotPest() ensures !MentionsAny("hi", PestWords) { NoneMentioned("hi", PestWords, "pdsf"); }
  lemma GreetingNotFertilizer() ensures !MentionsAny("hi", FertilizerWords) { NoneMentioned("hi", FertilizerWords, "fncm"); }
}
