/**
 * The static knowledge base of the pronunciation tutor: the phoneme confusion
 * table, the corrective explanation of every error category and the drill
 * word bank.
 */
module SabdakridaData {
  import opened Wrappers

  /**
   * `PHONEME_CONFUSIONS`: (expected, heard) -> error category. The table is
   * directional: it lists what the learner was meant to say first.
   */
  const PhonemeConfusions: map<(string, string), string> := map[
    ("ṭ", "t") := "retroflex_dental",
    ("ḍ", "d") := "retroflex_dental",
    ("ṇ", "n") := "retroflex_dental",
    ("ṭh", "th") := "retroflex_dental",
    ("ḍh", "dh") := "retroflex_dental",
    ("th", "t") := "aspiration",
    ("kh", "k") := "aspiration",
    ("ph", "p") := "aspiration",
    ("bh", "b") := "aspiration",
    ("gh", "g") := "aspiration",
    ("ch", "c") := "aspiration",
    ("ā", "a") := "vowel_length",
    ("ī", "i") := "vowel_length",
    ("ū", "u") := "vowel_length",
    ("ś", "s") := "palatal_sibilant",
    ("ṣ", "s") := "retroflex_sibilant",
    ("ṣ", "ś") := "sibilant_distinction",
    ("ṃ", "m") := "anusvara",
    ("ḥ", "h") := "visarga"
  ]

  /** The category of a diff entry, or None when the pair is not a known confusion. */
  function Classify(expected: string, heard: string): (r: Option<string>)
    ensures r.Some? ==> r.value in PhonemeConfusions.Values
    ensures r.None? <==> (expected, heard) !in PhonemeConfusions
  {
    if (expected, heard) in PhonemeConfusions then Some(PhonemeConfusions[(expected, heard)]) else None
  }

  /** One entry of `ERROR_EXPLANATIONS`: what the teacher voice says, and how. */
  datatype Explanation = Explanation(sanskrit: string, english: string, tip: string, tone: string)

  const ErrorExplanations: map<string, Explanation> := map[
    "retroflex_dental" := Explanation(
      "jihvā mūrdhni na sthitā. uccasthāne spṛśatu.",
      "Tongue not at hard palate. Touch the upper position.",
      "Curl tongue back — tip touches the ridge behind the teeth.",
      "command"),
    "aspiration" := Explanation(
      "śvāsaḥ nāsti. vāyu sahitam uccāraya.",
      "No breath. Pronounce with air.",
      "Hold hand in front of mouth — aspirated sounds need a puff.",
      "command"),
    "vowel_length" := Explanation(
      "dīrgha svaro hrasvaḥ jātaḥ. dviguṇakālaṃ tiṣṭhatu.",
      "Long vowel became short. Hold it twice as long.",
      "Count: ā is exactly 2× the duration of a.",
      "command"),
    "palatal_sibilant" := Explanation(
      "tālavya śaḥ nāsti. jihvā tāluni sthāpaya.",
      "Palatal sibilant missing. Place tongue at palate.",
      "ś is like the 'sh' in 'she' — tongue at roof of mouth.",
      "command"),
    "retroflex_sibilant" := Explanation(
      "mūrdhanya ṣaḥ nāsti. jihvā mūrdhni sthāpaya.",
      "Retroflex sibilant missing. Tongue at hard palate.",
      "ṣ: tongue curled back to palate, then push air.",
      "command"),
    "sibilant_distinction" := Explanation(
      "ś-ṣayor bhedaḥ āvaśyakaḥ.",
      "The ś / ṣ distinction is required.",
      "ś = tongue at palate tip. ṣ = tongue curled further back.",
      "command"),
    "anusvara" := Explanation(
      "anunāsikaṃ nāsti. nāsikayā uccāraya.",
      "Nasalisation missing. Produce through nose.",
      "ṃ resonates in the nasal cavity — hum it.",
      "command"),
    "visarga" := Explanation(
      "visargaḥ nāsti. avasāne śvāsaḥ āvaśyakaḥ.",
      "Visarga missing. A breath at the end is required.",
      "ḥ: after the vowel, exhale briefly at its mouth position.",
      "command")
  ]

  /** `DRILL_WORDS`: practice words for each category. */
  const DrillWords: map<string, seq<string>> := map[
    "retroflex_dental" := ["ṭīkā", "ḍambara", "naṭa", "nāṭya", "ṭhakura", "viṣṇu"],
    "vowel_length" := ["kāla", "nīla", "pūja", "āgama", "māla", "sīmā"],
    "aspiration" := ["phala", "bhāva", "khaga", "ghara", "dharma", "thala"],
    "palatal_sibilant" := ["śānti", "śabda", "viśva", "āśā", "puruṣa", "śiva"],
    "retroflex_sibilant" := ["ṣaṭ", "ṣaḍja", "puruṣa", "viṣṇu", "niṣṭhā"],
    "sibilant_distinction" := ["śiva", "ṣaṣṭha", "śānta"],
    "anusvara" := ["saṃskṛta", "śaṃkara", "aṃga", "kaṃsa"],
    "visarga" := ["namaḥ", "śāntiḥ", "puruṣaḥ", "devāḥ"]
  ]

  /** The eight categories the table can produce. */
  const Categories: set<string> := {
    "retroflex_dental", "aspiration", "vowel_length", "palatal_sibilant",
    "retroflex_sibilant", "sibilant_distinction", "anusvara", "visarga"
  }

  lemma ConfusionValues()
    ensures PhonemeConfusions.Values == Categories
  {
    assert PhonemeConfusions[("ṭ", "t")] == "retroflex_dental";
    assert PhonemeConfusions[("th", "t")] == "aspiration";
    assert PhonemeConfusions[("ā", "a")] == "vowel_length";
    assert PhonemeConfusions[("ś", "s")] == "palatal_sibilant";
    assert PhonemeConfusions[("ṣ", "s")] == "retroflex_sibilant";
    assert PhonemeConfusions[("ṣ", "ś")] == "sibilant_distinction";
    assert PhonemeConfusions[("ṃ", "m")] == "anusvara";
    assert PhonemeConfusions[("ḥ", "h")] == "visarga";
  }

  /** Every category the table yields has an explanation and a non-empty drill list. */
  lemma EveryCategoryCovered(c: string)
    requires c in PhonemeConfusions.Values
    ensures c in ErrorExplanations && c in DrillWords && |DrillWords[c]| > 0
  {
    ConfusionValues();
  }

  /** Every one of the eight categories has an explanation spoken in the command tone. */
  lemma CategoryExplained(c: string)
    requires c in Categories
    ensures c in ErrorExplanations && ErrorExplanations[c].tone == "command"
  {
  }

  /** The table is directional: a retroflex heard as dental is an error, the reverse is unknown. */
  lemma ConfusionIsDirectional()
    ensures Classify("ṭ", "t") == Some("retroflex_dental")
    ensures Classify("t", "ṭ") == None
  {
  }

  lemma ListedConfusions()
    ensures Classify("ā", "a") == Some("vowel_length")
    ensures Classify("ś", "s") == Some("palatal_sibilant")
    ensures Classify("ṣ", "ś") == Some("sibilant_distinction")
    ensures Classify("ṃ", "m") == Some("anusvara")
  {
  }

  /** Every aspiration key, and the aspirated retroflex keys, have a two-letter expected side. */
  lemma DigraphKeys(k: (string, string))
    requires k in PhonemeConfusions
    requires PhonemeConfusions[k] == "aspiration" || k == ("ṭh", "th") || k == ("ḍh", "dh")
    ensures |k.0| == 2
  {
  }

  /**
   * A pair of single characters is never classified as an aspiration error:
   * aspiration only appears under keys with a digraph.
   */
  lemma SingleCharsNeverAspiration(expected: string, heard: string)
    requires |expected| <= 1 && |heard| <= 1
    ensures Classify(expected, heard) != Some("aspiration")
  {
    if Classify(expected, heard) == Some("aspiration") {
      DigraphKeys((expected, heard));
    }
  }
}
