/**
 * The session conductor of the tutor: starting a (zone, level) session and
 * judging a submission against the level's session spec. A pass raises the
 * learner's level in the zone; a fail counts a retry, and from the third
 * retry on the learner is sent to remedial material.
 *
 * Reading the spec file is outside the model: the spec of the level (None
 * when the file or the level is missing) is a parameter, as are the clock
 * readings, the language model's reply and the pronunciation session's result.
 */
module TutorConductor {
  import opened Wrappers
  import opened Text
  import opened TutorProfiles
  import TutorGrammar
  import TutorConceptual
  import TutorPronunciation

  /** `remedial_on_fail`; a missing key is the empty object, both fields None. */
  datatype Remedial = Remedial(prerequisiteZones: Option<seq<string>>, retryVariant: Option<string>)

  /** `pass_criteria`: missing lists are empty, a missing pronunciation flag is false. */
  datatype PassCriteria = PassCriteria(conceptual: seq<string>, production: seq<string>, pronunciation: bool)

  /** One level of a zone's session spec; missing objectives are empty and a missing target text is "". */
  datatype SessionSpec = SessionSpec(
    objectives: seq<string>, assessmentType: Option<string>, maxDurationMinutes: Option<int>,
    remedialOnFail: Remedial, passCriteria: PassCriteria, targetText: string)

  /** The number of retries after which a level sends the learner to remedial material. */
  const MaxRetries: int := 3

  /** The error both entry points give for a missing spec. */
  function NoSpecMessage(zone: string, level: int): string
  {
    "No session spec for " + zone + " level " + IntToString(level)
  }

  // ---------------------------------------------------------------------------
  // Starting a session

  datatype StartResult =
    | StartError(error: string)
    | RemedialStart(message: string, prerequisiteZones: seq<string>, retryVariant: Option<string>)
    | Started(sessionId: string, zoneId: string, level: int, objectives: seq<string>, assessmentType: string,
              maxDurationMinutes: int, prompt: string, startedAt: string)

  /** The levels with a fixed opening question. */
  predicate HasFixedPrompt(zone: string, level: int)
  {
    (zone == "compression" && level == 1) || (zone == "phonetics" && level == 1) || (zone == "roots" && 1 <= level <= 5)
  }

  const DefaultPromptPrefix: string := "Complete the following: "

  /** `_get_first_prompt`. */
  function FirstPrompt(zone: string, level: int, objectives: seq<string>): string
  {
    if zone == "compression" && level == 1 then "What is a pratyāhāra? Give one example, e.g. ac or hal."
    else if zone == "phonetics" && level == 1 then "Name the five places of articulation in Sanskrit. Give one example consonant from each place."
    else if zone == "roots" && level == 1 then "In your own words, what is a dhātu (verbal root)? Give one example of a root and a form derived from it."
    else if zone == "roots" && level == 2 then "What is the root (dhātu) of गच्छति (gacchati)? Give just the root in IAST."
    else if zone == "roots" && level == 3 then "Produce 3 valid forms derived from the root √भू (bhū). You can use verbs, participles, nouns — any attested form. List them separated by commas."
    else if zone == "roots" && level == 4 then "What is the present tense, 3rd person singular of the root √गम् (gam)? Give the form in IAST."
    else if zone == "roots" && level == 5 then "Produce 5 different forms from the root √कृ (kṛ) across different tenses or moods. List them separated by commas."
    else GenericPrompt(objectives)
  }

  /** The prompt of a level without a fixed question: the generic prefix, then the objectives joined by "; ". */
  function GenericPrompt(objectives: seq<string>): (p: string)
    ensures StartsWith(p, DefaultPromptPrefix) && p[|DefaultPromptPrefix|..] == Join(objectives, "; ")
  {
    var p := DefaultPromptPrefix + Join(objectives, "; ");
    assert p[..|DefaultPromptPrefix|] == DefaultPromptPrefix;
    p
  }

  /** The fixed questions do not depend on the objectives. */
  lemma FixedPromptIgnoresObjectives(zone: string, level: int, objectives: seq<string>, others: seq<string>)
    requires HasFixedPrompt(zone, level)
    ensures FirstPrompt(zone, level, objectives) == FirstPrompt(zone, level, others)
  {
  }

  /** Every level without a fixed question gets the generic prefix followed by its objectives joined by "; ". */
  lemma GenericPromptListsObjectives(zone: string, level: int, objectives: seq<string>)
    requires !HasFixedPrompt(zone, level)
    ensures var p := FirstPrompt(zone, level, objectives);
      StartsWith(p, DefaultPromptPrefix) && p[|DefaultPromptPrefix|..] == Join(objectives, "; ")
  {
    assert FirstPrompt(zone, level, objectives) == GenericPrompt(objectives);
  }

  /**
   * `start_session` for the learner's stored profile `d`; `timestamp` and
   * `startedAt` are the clock's readings (seconds as text, ISO time).
   */
  function StartOf(d: TutorData, zone: string, level: int, spec: Option<SessionSpec>, timestamp: string, startedAt: string): StartResult
  {
    match spec
    case None => StartError(NoSpecMessage(zone, level))
    case Some(s) =>
      if CountOr0(d.levelRetryCounts, LevelKey(zone, level)) >= MaxRetries then
        RemedialStart("You've had 3 attempts. Let's review prerequisite material first.",
                      s.remedialOnFail.prerequisiteZones.GetOr([]), s.remedialOnFail.retryVariant)
      else
        Started(d.userId + "_" + zone + "_" + IntToString(level) + "_" + timestamp, zone, level, s.objectives,
                s.assessmentType.GetOr("conceptual"), s.maxDurationMinutes.GetOr(15),
                FirstPrompt(zone, level, s.objectives), startedAt)
  }

  /** `start_session`: reads the learner's profile and changes nothing. */
  method StartSession(store: TutorStore, userId: string, zone: string, level: int, spec: Option<SessionSpec>,
                      timestamp: string, startedAt: string) returns (r: StartResult)
    requires store.Valid()
    ensures r == StartOf(store.Stored(userId), zone, level, spec, timestamp, startedAt)
  {
    var profile := store.Load(userId);
    if spec.None? {
      return StartError(NoSpecMessage(zone, level));
    }
    var s := spec.value;
    var retries := profile.RetriesFor(zone, level);
    if retries >= MaxRetries {
      return RemedialStart("You've had 3 attempts. Let's review prerequisite material first.",
                           s.remedialOnFail.prerequisiteZones.GetOr([]), s.remedialOnFail.retryVariant);
    }
    var assessmentType := s.assessmentType.GetOr("conceptual");
    var prompt := FirstPrompt(zone, level, s.objectives);
    r := Started(userId + "_" + zone + "_" + IntToString(level) + "_" + timestamp, zone, level, s.objectives,
                 assessmentType, s.maxDurationMinutes.GetOr(15), prompt, startedAt);
  }

  /**
   * A start fails only for a missing spec, is remedial exactly when the
   * level has three or more retries, and otherwise opens the session with
   * the defaults "conceptual" and 15 minutes.
   */
  lemma StartOutcome(d: TutorData, zone: string, level: int, spec: Option<SessionSpec>, timestamp: string, startedAt: string)
    ensures var r := StartOf(d, zone, level, spec, timestamp, startedAt);
      (r.StartError? <==> spec.None?)
      && (r.RemedialStart? <==> spec.Some? && CountOr0(d.levelRetryCounts, LevelKey(zone, level)) >= 3)
      && (r.Started? ==>
            r.zoneId == zone && r.level == level && r.objectives == spec.value.objectives
            && (spec.value.assessmentType.None? ==> r.assessmentType == "conceptual")
            && (spec.value.maxDurationMinutes.None? ==> r.maxDurationMinutes == 15))
  {
  }

  // ---------------------------------------------------------------------------
  // Judging a submission

  /**
   * What the learner submitted, with what the assessors' outside calls gave
   * for it. `session` is the result of `Mode1.PronunciationSession` for the
   * learner "tutor"; its weakness-count write is not modelled here.
   */
  datatype Answer = Answer(
    userInput: string, audioPath: Option<string>,
    llm: TutorConceptual.LlmAccess, session: TutorPronunciation.SessionRun)

  datatype AssessMeta =
    | ConceptualMeta(conceptual: TutorConceptual.ConceptMeta)
    | PronunciationMeta(pronunciation: TutorPronunciation.PronMeta)
    | GrammarMeta

  datatype Assessment = Assessment(passed: bool, feedback: string, meta: AssessMeta)

  datatype Route = ByConceptual | ByPronunciation | ByGrammar

  /** Which assessor judges the level: production with a pronunciation criterion is heard, other production is checked by grammar, the rest is conceptual. */
  function RouteOf(s: SessionSpec): (r: Route)
    ensures r == ByConceptual <==> s.assessmentType.GetOr("conceptual") != "production"
    ensures r == ByPronunciation <==> s.assessmentType.GetOr("conceptual") == "production" && s.passCriteria.pronunciation
  {
    var t := s.assessmentType.GetOr("conceptual");
    if t == "conceptual" then ByConceptual
    else if t == "production" then (if s.passCriteria.pronunciation then ByPronunciation else ByGrammar)
    else ByConceptual
  }

  /** The audio path as passed on: an empty path counts as none, and then the typed text is passed instead. */
  function Pronunciation(s: SessionSpec, a: Answer): TutorPronunciation.Outcome
  {
    TutorPronunciation.AssessPronunciation(a.audioPath, a.session, false)
  }

  function FromConceptual(o: TutorConceptual.Outcome): Assessment
  {
    Assessment(o.passed, o.feedback, ConceptualMeta(o.meta))
  }

  function FromPronunciation(o: TutorPronunciation.Outcome): Assessment
  {
    Assessment(o.passed, o.feedback, PronunciationMeta(o.meta))
  }

  /** The grammar assessor's verdict; it returns two values, the verdict and the feedback. */
  function Grammar(s: SessionSpec, a: Answer, table: map<string, set<string>>): (bool, string)
  {
    TutorGrammar.AssessProduction(a.userInput, s.passCriteria.production, None, table)
  }

  /** What an assessor returned: a pair or a triple. */
  datatype Returned = Pair(passed: bool, feedback: string) | Triple(assessment: Assessment)

  /** `passed, feedback, meta = ...`: unpacking a pair into three names raises, modelled as None. */
  function Unpack3(t: Returned): (r: Option<Assessment>)
    ensures r.None? <==> t.Pair?
  {
    match t
    case Pair(_, _) => None
    case Triple(a) => Some(a)
  }

  /** The assessor call of `submit_session` as written; None where Python raises ValueError. */
  function DispatchAsWritten(s: SessionSpec, a: Answer, table: map<string, set<string>>): Option<Assessment>
  {
    match RouteOf(s)
    case ByConceptual => Unpack3(Triple(FromConceptual(TutorConceptual.Conceptual(a.userInput, s.passCriteria.conceptual, a.llm, TutorConceptual.DefaultThreshold))))
    case ByPronunciation => Unpack3(Triple(FromPronunciation(Pronunciation(s, a))))
    case ByGrammar =>
      var g := Grammar(s, a, table);
      Unpack3(Pair(g.0, g.1))
  }

  /**
   * As written, every submission to a production level without a
   * pronunciation criterion raises before the profile is touched: the
   * grammar assessor's pair cannot be unpacked into three names.
   */
  lemma GrammarPathRaises(s: SessionSpec, a: Answer, table: map<string, set<string>>)
    requires s.assessmentType == Some("production") && !s.passCriteria.pronunciation
    ensures DispatchAsWritten(s, a, table).None?
  {
  }

  /** The assessor call with the grammar assessor's pair completed by an empty meta. */
  function Dispatch(s: SessionSpec, a: Answer, table: map<string, set<string>>): (r: Assessment)
  {
    match RouteOf(s)
    case ByConceptual => FromConceptual(TutorConceptual.Conceptual(a.userInput, s.passCriteria.conceptual, a.llm, TutorConceptual.DefaultThreshold))
    case ByPronunciation => FromPronunciation(Pronunciation(s, a))
    case ByGrammar =>
      var g := Grammar(s, a, table);
      Assessment(g.0, g.1, GrammarMeta)
  }

  /**
   * With the meta completed, grammar-checked levels are judged by the
   * grammar assessor, and every other route returns what it did before.
   */
  lemma DispatchCompletesGrammar(s: SessionSpec, a: Answer, table: map<string, set<string>>)
    ensures RouteOf(s) == ByGrammar ==>
      Dispatch(s, a, table).passed == Grammar(s, a, table).0 && Dispatch(s, a, table).feedback == Grammar(s, a, table).1
    ensures RouteOf(s) != ByGrammar ==> DispatchAsWritten(s, a, table) == Some(Dispatch(s, a, table))
  {
  }

  /** A level with no production criteria passes on the grammar route whatever is typed; an empty answer to one that has them fails. */
  lemma GrammarRouteEdges(s: SessionSpec, a: Answer, table: map<string, set<string>>)
    requires RouteOf(s) == ByGrammar
    ensures s.passCriteria.production == [] ==> Dispatch(s, a, table).passed
    ensures s.passCriteria.production != [] && StripLower(a.userInput) == "" ==> !Dispatch(s, a, table).passed
  {
    TutorGrammar.AssessEdges(a.userInput, s.passCriteria.production, None, table);
  }

  /**
   * The assessor call of `submit_session` as written; the conceptual
   * heuristic runs its loop, and None is the grammar route's ValueError.
   */
  method Assess(s: SessionSpec, a: Answer, table: map<string, set<string>>) returns (r: Option<Assessment>)
    ensures r == DispatchAsWritten(s, a, table)
    ensures r.None? <==> RouteOf(s) == ByGrammar
    ensures r.Some? ==> r.value == Dispatch(s, a, table)
  {
    match RouteOf(s) {
      case ByConceptual =>
        var o := TutorConceptual.AssessConceptual(a.userInput, s.passCriteria.conceptual, a.llm, TutorConceptual.DefaultThreshold);
        r := Some(FromConceptual(o));
      case ByPronunciation =>
        r := Some(FromPronunciation(Pronunciation(s, a)));
      case ByGrammar =>
        var g := Grammar(s, a, table);
        r := Unpack3(Pair(g.0, g.1));
    }
  }

  datatype SubmitResult =
    | SubmitError(error: string)
    | UnpackRaised
    | PassedResult(feedback: string, zoneLevel: int)
    | FailedResult(feedback: string, retriesRemaining: int, remedial: Option<Remedial>, meta: AssessMeta)

  /** `dict.get(key, default)` on the zone levels. */
  function GetOr(m: map<string, int>, k: string, default: int): (n: int)
    ensures k in m ==> n == m[k]
    ensures k !in m ==> n == default
  {
    if k in m then m[k] else default
  }

  /** The profile after a pass: the zone raised to the level if higher, the level's retry counter cleared. */
  function AfterPass(d: TutorData, zone: string, level: int): TutorData
  {
    d.(zoneLevels := Raised(d.zoneLevels, zone, level), levelRetryCounts := d.levelRetryCounts - {LevelKey(zone, level)})
  }

  /** The profile after a fail: one more retry at the level. */
  function AfterFail(d: TutorData, zone: string, level: int): TutorData
  {
    d.(levelRetryCounts := Incremented(d.levelRetryCounts, LevelKey(zone, level)))
  }

  /** The response and the profile saved once a verdict is in: the level is passed, or a retry is counted. */
  function Decide(d: TutorData, zone: string, level: int, s: SessionSpec, verdict: Assessment): (SubmitResult, TutorData)
  {
    if verdict.passed then
      var after := AfterPass(d, zone, level);
      (PassedResult(verdict.feedback, GetOr(after.zoneLevels, zone, level)), after)
    else
      var retries := CountOr0(d.levelRetryCounts, LevelKey(zone, level)) + 1;
      (FailedResult(verdict.feedback, MaxRetries - retries, if retries >= MaxRetries then Some(s.remedialOnFail) else None, verdict.meta),
       AfterFail(d, zone, level))
  }

  /**
   * The response of `submit_session` as written and the profile it saves
   * (None when it saves nothing): the grammar route raises before saving.
   */
  function SubmitOf(d: TutorData, zone: string, level: int, spec: Option<SessionSpec>, a: Answer, table: map<string, set<string>>): (SubmitResult, Option<TutorData>)
  {
    match spec
    case None => (SubmitError(NoSpecMessage(zone, level)), None)
    case Some(s) =>
      match DispatchAsWritten(s, a, table)
      case None => (UnpackRaised, None)
      case Some(verdict) =>
        var (res, after) := Decide(d, zone, level, s, verdict);
        (res, Some(after))
  }

  /** The corrected submission: every route, the grammar route included, gives a verdict and saves. */
  function SubmitOfCorrected(d: TutorData, zone: string, level: int, spec: Option<SessionSpec>, a: Answer, table: map<string, set<string>>): (SubmitResult, Option<TutorData>)
  {
    match spec
    case None => (SubmitError(NoSpecMessage(zone, level)), None)
    case Some(s) =>
      var (res, after) := Decide(d, zone, level, s, Dispatch(s, a, table));
      (res, Some(after))
  }

  /**
   * As written, a submission raises and saves nothing exactly on the grammar
   * route; on every other route it agrees with the corrected submission.
   */
  lemma SubmitRoutes(d: TutorData, zone: string, level: int, s: SessionSpec, a: Answer, table: map<string, set<string>>)
    ensures RouteOf(s) == ByGrammar <==> SubmitOf(d, zone, level, Some(s), a, table) == (UnpackRaised, None)
    ensures RouteOf(s) != ByGrammar ==> SubmitOf(d, zone, level, Some(s), a, table) == SubmitOfCorrected(d, zone, level, Some(s), a, table)
    ensures SubmitOfCorrected(d, zone, level, Some(s), a, table).1.Some?
  {
    DispatchCompletesGrammar(s, a, table);
  }

  /** Once the assessor has given a verdict, the submission's response and saved profile are those of `Decide`. */
  lemma SubmitOfVerdict(d: TutorData, zone: string, level: int, s: SessionSpec, a: Answer, table: map<string, set<string>>, verdict: Assessment)
    requires DispatchAsWritten(s, a, table) == Some(verdict)
    ensures SubmitOf(d, zone, level, Some(s), a, table).0 == Decide(d, zone, level, s, verdict).0
    ensures SubmitOf(d, zone, level, Some(s), a, table).1 == Some(Decide(d, zone, level, s, verdict).1)
  {
  }

  /** `submit_session`: judge the answer, then pass the level or count a retry, and save the profile. */
  method SubmitSession(store: TutorStore, userId: string, zone: string, level: int, spec: Option<SessionSpec>,
                       a: Answer, table: map<string, set<string>>) returns (r: SubmitResult)
    requires store.Valid()
    modifies store
    ensures store.Valid()
    ensures r == SubmitOf(old(store.Stored(userId)), zone, level, spec, a, table).0
    ensures var saved := SubmitOf(old(store.Stored(userId)), zone, level, spec, a, table).1;
      store.rows == if saved.Some? then old(store.rows)[userId := saved.value] else old(store.rows)
  {
    var profile := store.Load(userId);
    ghost var d := profile.Data();
    if spec.None? {
      return SubmitError(NoSpecMessage(zone, level));
    }
    var s := spec.value;
    var assessed := Assess(s, a, table);
    if assessed.None? {
      return UnpackRaised;
    }
    var verdict := assessed.value;
    SubmitOfVerdict(d, zone, level, s, a, table, verdict);
    if verdict.passed {
      profile.PassLevel(zone, level);
      store.Save(profile);
      assert profile.Data() == Decide(d, zone, level, s, verdict).1;
      return PassedResult(verdict.feedback, GetOr(profile.zoneLevels, zone, level));
    }
    var retries := profile.IncrementRetry(zone, level);
    store.Save(profile);
    var remedial := None;
    if retries >= MaxRetries {
      remedial := Some(s.remedialOnFail);
    }
    assert profile.Data() == Decide(d, zone, level, s, verdict).1;
    r := FailedResult(verdict.feedback, MaxRetries - retries, remedial, verdict.meta);
  }

  /**
   * A pass reports at least the passed level, and the higher of the stored
   * and the passed level unless the zone has no stored level and the passed
   * level is negative (then the passed level itself is reported); the
   * level's retry counter is cleared.
   */
  lemma PassOutcome(d: TutorData, zone: string, level: int, s: SessionSpec, verdict: Assessment)
    requires verdict.passed
    ensures var (r, saved) := Decide(d, zone, level, s, verdict);
      r.PassedResult? && saved == AfterPass(d, zone, level)
      && r.zoneLevel >= level
      && (level >= 0 || zone in d.zoneLevels ==> r.zoneLevel == if level > CountOr0(d.zoneLevels, zone) then level else CountOr0(d.zoneLevels, zone))
      && CountOr0(saved.levelRetryCounts, LevelKey(zone, level)) == 0
  {
  }

  /**
   * A fail counts one retry; the retries remaining are 3 minus the new count
   * (negative once past the third), and the remedial material is attached
   * exactly from the third retry on.
   */
  lemma FailOutcome(d: TutorData, zone: string, level: int, s: SessionSpec, verdict: Assessment)
    requires !verdict.passed
    ensures var (r, saved) := Decide(d, zone, level, s, verdict);
      var retries := CountOr0(d.levelRetryCounts, LevelKey(zone, level)) + 1;
      r.FailedResult? && r.feedback == verdict.feedback
      && CountOr0(saved.levelRetryCounts, LevelKey(zone, level)) == retries
      && r.retriesRemaining == 3 - retries
      && (r.remedial.Some? <==> retries >= 3)
      && saved.zoneLevels == d.zoneLevels
  {
  }

  /** A missing spec is an error that saves nothing. */
  lemma MissingSpec(d: TutorData, zone: string, level: int, a: Answer, table: map<string, set<string>>)
    ensures SubmitOf(d, zone, level, None, a, table) == (SubmitError(NoSpecMessage(zone, level)), None)
    ensures SubmitOfCorrected(d, zone, level, None, a, table) == (SubmitError(NoSpecMessage(zone, level)), None)
  {
  }

  /** Three failed submissions at a fresh level send the next start to remedial material. */
  lemma ThreeFailsThenRemedial(d: TutorData, zone: string, level: int, s: SessionSpec, timestamp: string, startedAt: string)
    requires LevelKey(zone, level) !in d.levelRetryCounts
    ensures var d3 := AfterFail(AfterFail(AfterFail(d, zone, level), zone, level), zone, level);
      StartOf(d3, zone, level, Some(s), timestamp, startedAt).RemedialStart?
      && !StartOf(AfterFail(AfterFail(d, zone, level), zone, level), zone, level, Some(s), timestamp, startedAt).RemedialStart?
  {
  }

  /** After a pass the level starts normally again, whatever retries came before. */
  lemma PassResetsRetries(d: TutorData, zone: string, level: int, s: SessionSpec, timestamp: string, startedAt: string)
    ensures StartOf(AfterPass(d, zone, level), zone, level, Some(s), timestamp, startedAt).Started?
  {
  }

  /** A retry at one level never makes another level remedial. */
  lemma FailIsPerLevel(d: TutorData, zone: string, level: int, zone2: string, level2: int, s: SessionSpec, timestamp: string, startedAt: string)
    requires zone != zone2 || level != level2
    ensures StartOf(AfterFail(d, zone, level), zone2, level2, Some(s), timestamp, startedAt).RemedialStart?
        <==> StartOf(d, zone2, level2, Some(s), timestamp, startedAt).RemedialStart?
  {
    IncrementOtherLevel(d.levelRetryCounts, zone, level, zone2, level2);
  }
}
