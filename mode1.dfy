/**
 * Mode 1 of the pronunciation tutor (real-time shadowing): from the diff of
 * the target against what the recogniser heard, a score, the error
 * categories, position-specific details, the teacher's reply and the update
 * of the learner's weakness counters.
 *
 * Transcription, transliteration, audio loading and the acoustic fallback
 * advice are outside the model: their results are parameters.
 */
module Mode1 {
  import opened Wrappers
  import opened Text
  import opened PhonemeDiff
  import opened SabdakridaData
  import opened WeaknessProfile

  /** `LONG_VOWELS`. */
  const LongVowels: seq<string> := ["ā", "ī", "ū", "ṝ"]

  /** `any(v in target_text for v in LONG_VOWELS)`. */
  predicate HasLongVowel(target: string)
  {
    exists i :: 0 <= i < |LongVowels| && Contains(target, LongVowels[i])
  }

  function RealMax(x: real, y: real): real { if x < y then y else x }

  /** The reference duration for a target: 0.12 s per character, at least 0.5 s. */
  function RefEstimate(target: string): (r: real)
    ensures r >= 0.5
  {
    RealMax(0.5, 0.12 * |target| as real)
  }

  /**
   * `_check_vowel_duration_fast`: (too short, reference estimate). The audio's
   * length in seconds is a parameter; None stands for a file that fails to load.
   */
  function CheckVowelDuration(target: string, learnerSeconds: Option<real>): (r: (bool, Option<real>))
  {
    if !HasLongVowel(target) then (false, None)
    else match learnerSeconds
      case None => (false, None)
      case Some(d) => (d < RefEstimate(target) * 0.5, Some(RefEstimate(target)))
  }

  /**
   * The duration check fails only for a target with a long vowel whose audio
   * loaded and lasts less than half the reference estimate; the estimate is
   * reported exactly when the audio of such a target loaded.
   */
  lemma DurationFailure(target: string, learnerSeconds: Option<real>)
    ensures CheckVowelDuration(target, learnerSeconds).0 <==>
      HasLongVowel(target) && learnerSeconds.Some? && learnerSeconds.value < RefEstimate(target) / 2.0
    ensures CheckVowelDuration(target, learnerSeconds).1.Some? <==> HasLongVowel(target) && learnerSeconds.Some?
    ensures learnerSeconds.None? ==> CheckVowelDuration(target, learnerSeconds) == (false, None)
  {
  }

  /** A long vowel written as one character is contained exactly when it occurs. */
  lemma HasLongVowelChars(target: string)
    ensures HasLongVowel(target) <==> 'ā' in target || 'ī' in target || 'ū' in target || 'ṝ' in target
  {
    ContainsChar(target, 'ā');
    ContainsChar(target, 'ī');
    ContainsChar(target, 'ū');
    ContainsChar(target, 'ṝ');
    assert LongVowels[0] == ['ā'] && LongVowels[1] == ['ī'] && LongVowels[2] == ['ū'] && LongVowels[3] == ['ṝ'];
  }

  // ---------------------------------------------------------------------------
  // Score

  /**
   * Python's `round(x, 2)` on the exact value: the nearest multiple of 0.01,
   * ties to the even multiple.
   */
  function Round2(x: real): (r: real)
  {
    var y := x * 100.0;
    var n := y.Floor;
    var f := y - n as real;
    var k := if f > 0.5 then n + 1 else if f < 0.5 then n else if n % 2 == 0 then n else n + 1;
    k as real / 100.0
  }

  /** Rounding moves a value by at most half a hundredth and keeps [0, 1]. */
  lemma Round2Bounds(x: real)
    ensures -0.005 <= Round2(x) - x <= 0.005
    ensures 0.0 <= x <= 1.0 ==> 0.0 <= Round2(x) <= 1.0
  {
    var y := x * 100.0;
    var n := y.Floor;
    assert n as real <= y < n as real + 1.0;
  }

  /** The session score from the number of diff entries, the duration verdict and the similarity. */
  function Score(errorCount: nat, durationFail: bool, similarity: real): (r: real)
    ensures errorCount == 0 && durationFail ==> r == 0.85
    ensures errorCount == 0 && !durationFail ==> r <= 0.99
    ensures errorCount > 0 ==> r == Round2(similarity)
  {
    if errorCount == 0 && !durationFail then RealMin(0.99, Round2(similarity))
    else if errorCount == 0 then 0.85
    else Round2(similarity)
  }

  function RealMin(x: real, y: real): real { if x < y then x else y }

  /** A similarity in [0, 1] gives a score in [0, 1], and never 1.0 without errors. */
  lemma ScoreBounds(errorCount: nat, durationFail: bool, similarity: real)
    requires 0.0 <= similarity <= 1.0
    ensures 0.0 <= Score(errorCount, durationFail, similarity) <= 1.0
    ensures errorCount == 0 ==> Score(errorCount, durationFail, similarity) < 1.0
    ensures errorCount == 0 && !durationFail ==> Score(errorCount, durationFail, similarity) == RealMin(0.99, Round2(similarity))
  {
    Round2Bounds(similarity);
  }

  // ---------------------------------------------------------------------------
  // Error types

  /** The categories of the classified diff entries, in diff order (lines 85-87). */
  function MappedTypes(errors: seq<Entry>): seq<string>
  {
    if errors == [] then []
    else
      var last := errors[|errors| - 1];
      MappedTypes(errors[..|errors| - 1]) + (match Classify(last.0, last.1) case Some(c) => [c] case None => [])
  }

  /** `error_types`: the mapped categories, then "vowel_length" iff the duration check failed. */
  function ErrorTypes(errors: seq<Entry>, durationFail: bool): seq<string>
  {
    MappedTypes(errors) + (if durationFail then ["vowel_length"] else [])
  }

  /** Each entry with a category contributes it, and unknown pairs are skipped. */
  lemma {:induction false} MappedTypesMembers(errors: seq<Entry>)
    ensures |MappedTypes(errors)| <= |errors|
    ensures forall c :: c in MappedTypes(errors) <==> exists i :: 0 <= i < |errors| && Classify(errors[i].0, errors[i].1) == Some(c)
  {
    if errors != [] {
      var init := errors[..|errors| - 1];
      var last := errors[|errors| - 1];
      var k := Classify(last.0, last.1);
      var tail := match k case Some(c) => [c] case None => [];
      MappedTypesMembers(init);
      assert MappedTypes(errors) == MappedTypes(init) + tail;
      forall c ensures c in MappedTypes(errors) <==> exists i :: 0 <= i < |errors| && Classify(errors[i].0, errors[i].1) == Some(c) {
        if c in MappedTypes(init) {
          var i :| 0 <= i < |init| && Classify(init[i].0, init[i].1) == Some(c);
          assert errors[i] == init[i];
        } else if k == Some(c) {
          assert Classify(errors[|errors| - 1].0, errors[|errors| - 1].1) == Some(c);
        } else {
          forall i | 0 <= i < |errors| ensures Classify(errors[i].0, errors[i].1) != Some(c) {
            if i < |init| {
              assert init[i] == errors[i];
            }
          }
        }
      }
    }
  }

  /** The list is empty exactly when no entry is a known confusion and the duration was fine. */
  lemma ErrorTypesEmpty(errors: seq<Entry>, durationFail: bool)
    ensures ErrorTypes(errors, durationFail) == [] <==>
      !durationFail && forall i :: 0 <= i < |errors| ==> Classify(errors[i].0, errors[i].1).None?
  {
    MappedTypesMembers(errors);
    if !durationFail && MappedTypes(errors) != [] {
      var c := MappedTypes(errors)[0];
      assert c in MappedTypes(errors);
    }
  }

  /** Every reported type is one of the eight categories. */
  lemma ErrorTypesAreCategories(errors: seq<Entry>, durationFail: bool)
    ensures forall c :: c in ErrorTypes(errors, durationFail) ==> c in Categories
  {
    MappedTypesMembers(errors);
    ConfusionValues();
  }

  /**
   * Diff entries pair single characters, so the aspiration category, whose
   * keys all have a two-letter expected side, is never reported from a diff.
   */
  lemma AspirationNeverDetected(ops: seq<Opcode>, t: string, h: string, durationFail: bool)
    requires InBounds(ops, t, h)
    ensures "aspiration" !in ErrorTypes(DiffOf(ops, t, h), durationFail)
  {
    var errors := DiffOf(ops, t, h);
    DiffOfSingleChars(ops, t, h);
    MappedTypesMembers(errors);
    if "aspiration" in MappedTypes(errors) {
      var i :| 0 <= i < |errors| && Classify(errors[i].0, errors[i].1) == Some("aspiration");
      SingleCharsNeverAspiration(errors[i].0, errors[i].1);
    }
  }

  // ---------------------------------------------------------------------------
  // Error details

  /** A diff entry with the index of the target syllable it belongs to (-1 when unknown). */
  type PosError = (string, string, int)

  datatype Detail = Detail(kind: string, word: string, syllable: string, vowel: string, message: string)

  /** The detail of one positioned entry, if it is a vowel-length error in a known syllable. */
  function PositionDetail(e: PosError, target: string, syllableAt: (string, int) -> string): (r: Option<Detail>)
    ensures r.Some? ==> r.value.kind == "vowel_length" && r.value.vowel in LongVowels && r.value.syllable != []
  {
    var (exp, got, idx) := e;
    if Classify(exp, got) != Some("vowel_length") || idx < 0 then None
    else
      var syllable := syllableAt(target, idx);
      var longVowel := if exp in LongVowels then exp else got;
      if syllable == [] || longVowel !in LongVowels then None
      else Some(Detail("vowel_length", target, syllable, longVowel,
        "In " + target + ", the " + longVowel + " in " + syllable + " should be held twice as long."))
  }

  /** The details from positioned entries (lines 98-114), in entry order. */
  function PositionDetails(errors: seq<PosError>, target: string, syllableAt: (string, int) -> string): seq<Detail>
  {
    if errors == [] then []
    else
      PositionDetails(errors[..|errors| - 1], target, syllableAt)
      + (match PositionDetail(errors[|errors| - 1], target, syllableAt) case Some(d) => [d] case None => [])
  }

  /** The long vowels that occur in the target, in `LONG_VOWELS` order. */
  function LongInWord(target: string): (r: seq<string>)
    ensures forall v :: v in r ==> v in LongVowels && Contains(target, v)
    ensures forall v :: v in LongVowels && Contains(target, v) ==> v in r
  {
    Filter(LongVowels, target)
  }

  function Filter(vs: seq<string>, target: string): (r: seq<string>)
    ensures forall v :: v in r <==> v in vs && Contains(target, v)
  {
    if vs == [] then []
    else (if Contains(target, vs[0]) then [vs[0]] else []) + Filter(vs[1..], target)
  }

  /** The generic detail of a duration-only failure. */
  function DurationDetail(target: string, long: seq<string>): Detail
    requires long != []
  {
    Detail("vowel_length", target, "", long[0],
      "In " + target + ", hold the long vowel(s) (" + Join(long, ", ") + ") twice as long.")
  }

  /** `error_details`: the positional details, or the generic one after a duration-only failure. */
  function ErrorDetails(errors: seq<PosError>, target: string, durationFail: bool, syllableAt: (string, int) -> string): seq<Detail>
  {
    var d := PositionDetails(errors, target, syllableAt);
    if durationFail && d == [] && LongInWord(target) != [] then [DurationDetail(target, LongInWord(target))] else d
  }

  /**
   * Every detail is a vowel-length detail about a long vowel; the generic one
   * appears only after a failed duration check, only when no positional detail
   * exists, and then alone.
   */
  lemma {:induction false} ErrorDetailsShape(errors: seq<PosError>, target: string, durationFail: bool, syllableAt: (string, int) -> string)
    ensures forall d :: d in ErrorDetails(errors, target, durationFail, syllableAt) ==> d.kind == "vowel_length" && d.vowel in LongVowels
    ensures PositionDetails(errors, target, syllableAt) != [] ==> ErrorDetails(errors, target, durationFail, syllableAt) == PositionDetails(errors, target, syllableAt)
    ensures !durationFail ==> ErrorDetails(errors, target, durationFail, syllableAt) == PositionDetails(errors, target, syllableAt)
    ensures |ErrorDetails(errors, target, durationFail, syllableAt)| <= |errors| + 1
  {
    PositionDetailsShape(errors, target, syllableAt);
  }

  lemma {:induction false} PositionDetailsShape(errors: seq<PosError>, target: string, syllableAt: (string, int) -> string)
    ensures forall d :: d in PositionDetails(errors, target, syllableAt) ==> d.kind == "vowel_length" && d.vowel in LongVowels
    ensures |PositionDetails(errors, target, syllableAt)| <= |errors|
  {
    if errors != [] {
      PositionDetailsShape(errors[..|errors| - 1], target, syllableAt);
    }
  }

  // ---------------------------------------------------------------------------
  // The teacher's reply

  /** How often `x` occurs in `s`. */
  function Count(s: seq<string>, x: string): nat
  {
    multiset(s)[x]
  }

  /**
   * `Counter(types).most_common(1)[0][0]`: the most frequent type, the
   * earliest one when several are equally frequent. Scanning from `i` with
   * `best` as the current winner.
   */
  function MostCommonFrom(types: seq<string>, i: nat, best: string): string
    requires i <= |types|
    decreases |types| - i
  {
    if i == |types| then best
    else if Count(types, types[i]) > Count(types, best) then MostCommonFrom(types, i + 1, types[i])
    else MostCommonFrom(types, i + 1, best)
  }

  function MostCommon(types: seq<string>): string
    requires types != []
  {
    MostCommonFrom(types, 1, types[0])
  }

  /** The winner occurs, no type occurs more often, and every type met before it occurs less often. */
  lemma {:induction false} MostCommonFromSpec(types: seq<string>, i: nat, best: string, bi: nat)
    requires 0 < i <= |types| && bi < i && types[bi] == best
    requires forall j :: 0 <= j < i ==> Count(types, types[j]) <= Count(types, best)
    requires forall j :: 0 <= j < bi ==> Count(types, types[j]) < Count(types, best)
    ensures exists k :: (0 <= k < |types| && types[k] == MostCommonFrom(types, i, best)
      && (forall j :: 0 <= j < |types| ==> Count(types, types[j]) <= Count(types, types[k]))
      && (forall j :: 0 <= j < k ==> Count(types, types[j]) < Count(types, types[k])))
    decreases |types| - i
  {
    if i < |types| {
      if Count(types, types[i]) > Count(types, best) {
        MostCommonFromSpec(types, i + 1, types[i], i);
      } else {
        MostCommonFromSpec(types, i + 1, best, bi);
      }
    }
  }

  lemma MostCommonSpec(types: seq<string>)
    requires types != []
    ensures MostCommon(types) in types
    ensures forall x :: x in types ==> Count(types, x) <= Count(types, MostCommon(types))
    ensures exists k :: (0 <= k < |types| && types[k] == MostCommon(types)
      && forall j :: 0 <= j < k ==> Count(types, types[j]) < Count(types, MostCommon(types)))
  {
    MostCommonFromSpec(types, 1, types[0], 0);
    var k :| 0 <= k < |types| && types[k] == MostCommon(types)
      && (forall j :: 0 <= j < |types| ==> Count(types, types[j]) <= Count(types, types[k]))
      && (forall j :: 0 <= j < k ==> Count(types, types[j]) < Count(types, types[k]));
    forall x | x in types ensures Count(types, x) <= Count(types, MostCommon(types)) {
      var j :| 0 <= j < |types| && types[j] == x;
    }
  }

  /** The spoken text, the English feedback and the voice style. */
  datatype Reply = Reply(responseText: string, feedbackEnglish: string, style: string)

  const Praise := Reply("sādhu! śuddha uccāraṇā. etat samyak asti.", "Well done! Clear pronunciation. That's correct.", "praise")

  const RetryText := "punar vadatu. śuddhataraṃ uccāraya."

  /** Lines 128-151: praise, the explanation of the primary error, or the fallback. */
  function Feedback(correct: bool, types: seq<string>, details: seq<Detail>, fallbackAdvice: string): (r: Reply)
    ensures correct ==> r == Praise
    ensures !correct && details != [] ==> r.feedbackEnglish == details[0].message
  {
    if correct then Praise
    else if types != [] && MostCommon(types) in ErrorExplanations then
      var e := ErrorExplanations[MostCommon(types)];
      Reply(e.sanskrit, if details != [] then details[0].message else e.english, e.tone)
    else
      Reply(RetryText, if details != [] then details[0].message else fallbackAdvice, "command")
  }

  /** Every explanation is spoken in the command tone. */
  lemma ExplanationTones(c: string)
    requires c in ErrorExplanations
    ensures ErrorExplanations[c].tone == "command"
  {
  }

  /** The reply praises exactly a correct answer; everything else is a command. */
  lemma FeedbackStyle(correct: bool, types: seq<string>, details: seq<Detail>, fallbackAdvice: string)
    ensures Feedback(correct, types, details, fallbackAdvice).style == (if correct then "praise" else "command")
  {
    if !correct && types != [] && MostCommon(types) in ErrorExplanations {
      ExplanationTones(MostCommon(types));
    }
  }

  /**
   * When the session's types are present the primary one always has an
   * explanation, so the fallback is used only when there is no type at all.
   */
  lemma FeedbackUsesPrimaryExplanation(errors: seq<Entry>, durationFail: bool, details: seq<Detail>, fallbackAdvice: string)
    requires ErrorTypes(errors, durationFail) != []
    ensures var types := ErrorTypes(errors, durationFail);
      MostCommon(types) in ErrorExplanations
      && Feedback(false, types, details, fallbackAdvice).responseText == ErrorExplanations[MostCommon(types)].sanskrit
      && Feedback(false, types, details, fallbackAdvice).style == "command"
  {
    var types := ErrorTypes(errors, durationFail);
    MostCommonSpec(types);
    ErrorTypesAreCategories(errors, durationFail);
    CategoryExplained(MostCommon(types));
  }

  // ---------------------------------------------------------------------------
  // The session

  datatype SessionResult = SessionResult(
    target: string, heard: string, heardIast: string, errors: seq<Entry>, errorTypes: seq<string>,
    errorDetails: seq<Detail>, reply: Reply, correct: bool, score: real)

  /** The (expected, heard) pairs of the positioned diff. */
  function Unpositioned(errorsWithPos: seq<PosError>): (r: seq<Entry>)
    ensures |r| == |errorsWithPos|
    ensures forall i :: 0 <= i < |r| ==> r[i] == (errorsWithPos[i].0, errorsWithPos[i].1)
  {
    seq(|errorsWithPos|, i requires 0 <= i < |errorsWithPos| => (errorsWithPos[i].0, errorsWithPos[i].1))
  }

  /** The loop of lines 84-89. */
  method CollectTypes(errors: seq<Entry>, durationFail: bool) returns (types: seq<string>)
    ensures types == ErrorTypes(errors, durationFail)
  {
    types := [];
    for i := 0 to |errors|
      invariant types == MappedTypes(errors[..i])
    {
      assert errors[..i + 1][..i] == errors[..i];
      var c := Classify(errors[i].0, errors[i].1);
      if c.Some? {
        types := types + [c.value];
      }
    }
    assert errors[..|errors|] == errors;
    if durationFail {
      types := types + ["vowel_length"];
    }
  }

  /** The loops of lines 97-125. */
  method CollectDetails(errorsWithPos: seq<PosError>, target: string, durationFail: bool, syllableAt: (string, int) -> string)
    returns (details: seq<Detail>)
    ensures details == ErrorDetails(errorsWithPos, target, durationFail, syllableAt)
  {
    details := [];
    for i := 0 to |errorsWithPos|
      invariant details == PositionDetails(errorsWithPos[..i], target, syllableAt)
    {
      assert errorsWithPos[..i + 1][..i] == errorsWithPos[..i];
      var d := PositionDetail(errorsWithPos[i], target, syllableAt);
      if d.Some? {
        details := details + [d.value];
      }
    }
    assert errorsWithPos[..|errorsWithPos|] == errorsWithPos;
    if durationFail && details == [] {
      var long := LongInWord(target);
      if long != [] {
        details := details + [DurationDetail(target, long)];
      }
    }
  }

  /**
   * `pronunciation_session` after transcription: `heard` is the recogniser's
   * output and `heardIast` its transliteration, `errorsWithPos` the positioned
   * diff, `ops` the matcher's alignment of the normalised pair, `learnerSeconds`
   * the audio length (None when it cannot be loaded), `syllableAt` the
   * syllable lookup and `fallbackAdvice` the acoustic advice.
   */
  method PronunciationSession(
    target: string, heard: string, heardIast: string, errorsWithPos: seq<PosError>, ops: seq<Opcode>,
    learnerSeconds: Option<real>, syllableAt: (string, int) -> string, fallbackAdvice: string,
    user: string, store: ErrorStore)
    returns (res: SessionResult)
    requires MatcherOpcodes(ops, NormalizeIast(target), NormalizeIast(heardIast))
    requires store.Valid()
    modifies store
    ensures store.Valid()
    ensures res == SessionSpec(target, heard, heardIast, errorsWithPos, ops, learnerSeconds, syllableAt, fallbackAdvice)
    ensures store.counts == if res.errorTypes != [] then BumpAll(old(store.counts), user, res.errorTypes) else old(store.counts)
  {
    var errors := Unpositioned(errorsWithPos);
    var baseScore := Similarity(target, heardIast, ops);
    var fail := CheckVowelDuration(target, learnerSeconds).0;
    var score := Score(|errors|, fail, baseScore);
    var types := CollectTypes(errors, fail);
    if types != [] {
      store.UpdateUserProfile(user, types);
    }
    var details := CollectDetails(errorsWithPos, target, fail, syllableAt);
    var correct := errors == [] && !fail;
    var reply := Feedback(correct, types, details, fallbackAdvice);
    res := SessionResult(target, heard, heardIast, errors, types, details, reply, correct, score);
  }

  /** The response of a session, as a function of its inputs. */
  function SessionSpec(
    target: string, heard: string, heardIast: string, errorsWithPos: seq<PosError>, ops: seq<Opcode>,
    learnerSeconds: Option<real>, syllableAt: (string, int) -> string, fallbackAdvice: string): SessionResult
    requires MatcherOpcodes(ops, NormalizeIast(target), NormalizeIast(heardIast))
  {
    var errors := Unpositioned(errorsWithPos);
    var fail := CheckVowelDuration(target, learnerSeconds).0;
    var types := ErrorTypes(errors, fail);
    var details := ErrorDetails(errorsWithPos, target, fail, syllableAt);
    var correct := errors == [] && !fail;
    SessionResult(target, heard, heardIast, errors, types, details,
      Feedback(correct, types, details, fallbackAdvice), correct,
      Score(|errors|, fail, Similarity(target, heardIast, ops)))
  }

  /**
   * What a session promises: it is correct exactly when the diff is empty and
   * the duration was fine, and only then does it praise; the score is in
   * [0, 1] and below 1.0 even when correct.
   */
  lemma SessionOutcome(
    target: string, heard: string, heardIast: string, errorsWithPos: seq<PosError>, ops: seq<Opcode>,
    learnerSeconds: Option<real>, syllableAt: (string, int) -> string, fallbackAdvice: string)
    requires MatcherOpcodes(ops, NormalizeIast(target), NormalizeIast(heardIast))
    ensures var r := SessionSpec(target, heard, heardIast, errorsWithPos, ops, learnerSeconds, syllableAt, fallbackAdvice);
      (r.correct <==> errorsWithPos == [] && !CheckVowelDuration(target, learnerSeconds).0)
      && r.reply.style == (if r.correct then "praise" else "command")
      && 0.0 <= r.score <= 1.0
      && (r.correct ==> r.score <= 0.99)
  {
    var r := SessionSpec(target, heard, heardIast, errorsWithPos, ops, learnerSeconds, syllableAt, fallbackAdvice);
    var fail := CheckVowelDuration(target, learnerSeconds).0;
    SimilarityBounds(target, heardIast, ops);
    ScoreBounds(|errorsWithPos|, fail, Similarity(target, heardIast, ops));
    FeedbackStyle(r.correct, r.errorTypes, r.errorDetails, fallbackAdvice);
  }

  lemma SimilarityBounds(target: string, heardIast: string, ops: seq<Opcode>)
    requires MatcherOpcodes(ops, NormalizeIast(target), NormalizeIast(heardIast))
    ensures 0.0 <= Similarity(target, heardIast, ops) <= 1.0
  {
  }
}
