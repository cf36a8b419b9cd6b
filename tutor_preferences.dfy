/**
 * The tutor's preferences: the learner's native language and the voice
 * of speech synthesis, kept as JSON under one localStorage key. Reading
 * validates each field against its list independently, falling back to
 * the default for that field.
 */
module TutorPreferences {
  import opened Wrappers

  /** The codes of `NATIVE_LANGUAGES`. */
  const NativeLanguages: seq<string> := ["en", "es", "fr", "de", "hi", "pt", "ru", "ja", "zh", "ar", "it", "nl", "pl", "ko"]

  /** The ids of `KOKORO_VOICES`. */
  const Voices: seq<string> := [
    "af_heart", "af_bella", "af_nicole", "af_sarah", "af_sky", "af_alloy", "af_aoede", "af_jessica",
    "af_kore", "af_nova", "af_river", "am_adam", "am_echo", "am_eric", "am_michael", "am_liam",
    "bf_emma", "bf_isabella", "bm_george", "bm_lewis"]

  datatype Preferences = Preferences(nativeLanguage: string, tutorVoice: string)

  /** A parsed object: each field, when it is present as a string. */
  datatype PreferencesPatch = PreferencesPatch(nativeLanguage: Option<string>, tutorVoice: Option<string>)

  const Defaults: Preferences := Preferences("en", "af_heart")

  predicate ValidPreferences(p: Preferences)
  {
    p.nativeLanguage in NativeLanguages && p.tutorVoice in Voices
  }

  /** The validation of a parsed object: each field kept only when listed, independently of the other. */
  function Validate(parsed: PreferencesPatch): (p: Preferences)
    ensures ValidPreferences(p)
    ensures p.nativeLanguage == (if parsed.nativeLanguage.Some? && parsed.nativeLanguage.value in NativeLanguages
                                 then parsed.nativeLanguage.value else "en")
    ensures p.tutorVoice == (if parsed.tutorVoice.Some? && parsed.tutorVoice.value in Voices
                             then parsed.tutorVoice.value else "af_heart")
  {
    Preferences(
      if parsed.nativeLanguage.Some? && parsed.nativeLanguage.value in NativeLanguages then parsed.nativeLanguage.value else Defaults.nativeLanguage,
      if parsed.tutorVoice.Some? && parsed.tutorVoice.value in Voices then parsed.tutorVoice.value else Defaults.tutorVoice)
  }

  /** `{ ...current, ...p }`. */
  function Overlay(current: Preferences, patch: PreferencesPatch): (r: Preferences)
    ensures r.nativeLanguage == patch.nativeLanguage.GetOr(current.nativeLanguage)
    ensures r.tutorVoice == patch.tutorVoice.GetOr(current.tutorVoice)
  {
    Preferences(patch.nativeLanguage.GetOr(current.nativeLanguage), patch.tutorVoice.GetOr(current.tutorVoice))
  }

  /** The object `JSON.stringify` writes. */
  function AsPatch(p: Preferences): (patch: PreferencesPatch)
    ensures patch.nativeLanguage == Some(p.nativeLanguage) && patch.tutorVoice == Some(p.tutorVoice)
  {
    PreferencesPatch(Some(p.nativeLanguage), Some(p.tutorVoice))
  }

  /** Valid preferences written out read back unchanged, so validating twice is validating once. */
  lemma ValidateKeepsValid(p: Preferences)
    requires ValidPreferences(p)
    ensures Validate(AsPatch(p)) == p
  {
  }

  class PreferenceStore {
    /** `typeof window !== "undefined"`. */
    const browser: bool
    var stored: Slot<PreferencesPatch>

    constructor(inBrowser: bool)
      ensures browser == inBrowser && stored == Absent
    {
      browser := inBrowser;
      stored := Absent;
    }

    /** `getTutorPreferences`: the defaults on the server, without data or on a parse error; else the validated object. */
    function Get(): (p: Preferences)
      reads this
      ensures ValidPreferences(p)
      ensures !browser || !stored.Present? ==> p == Defaults
      ensures browser && stored.Present? ==> p == Validate(stored.value)
    {
      if browser && stored.Present? then Validate(stored.value) else Defaults
    }

    /** `saveTutorPreferences`: the partial argument over the current preferences; nothing on the server. */
    method Save(patch: PreferencesPatch)
      modifies this
      ensures browser ==> stored == Present(AsPatch(Overlay(old(Get()), patch)))
      ensures !browser ==> stored == old(stored)
    {
      if !browser {
        return;
      }
      var next := Overlay(Get(), patch);
      stored := Present(AsPatch(next));
    }
  }

  /**
   * Saving and reading back: a listed value given in the patch is read back,
   * an omitted field keeps its current value, and an unlisted value is read
   * back as that field's default while the other field is unaffected.
   */
  lemma SaveReadsBack(current: Preferences, patch: PreferencesPatch)
    requires ValidPreferences(current)
    ensures var r := Validate(AsPatch(Overlay(current, patch)));
      && (patch.nativeLanguage.None? ==> r.nativeLanguage == current.nativeLanguage)
      && (patch.nativeLanguage.Some? && patch.nativeLanguage.value in NativeLanguages ==> r.nativeLanguage == patch.nativeLanguage.value)
      && (patch.nativeLanguage.Some? && patch.nativeLanguage.value !in NativeLanguages ==> r.nativeLanguage == "en")
      && (patch.tutorVoice.None? ==> r.tutorVoice == current.tutorVoice)
      && (patch.tutorVoice.Some? && patch.tutorVoice.value in Voices ==> r.tutorVoice == patch.tutorVoice.value)
      && (patch.tutorVoice.Some? && patch.tutorVoice.value !in Voices ==> r.tutorVoice == "af_heart")
  {
  }
}
