/**
 * The pronunciation assessor of the tutor. With a recording it runs the
 * pronunciation session of the practice engine and passes when the score
 * reaches the tolerance (0.85, or 0.95 in strict mode) or the session judged
 * the attempt correct. Typed text cannot be heard, so it never passes and is
 * flagged as unverified.
 */
module TutorPronunciation {
  import opened Wrappers
  import opened PhonemeDiff
  import opened Mode1

  /**
   * What `pronunciation_session(audio_path, target_text, "tutor")` gave: it
   * raised with a message, or it returned its result. That call is
   * `Mode1.PronunciationSession`, which also bumps the weakness counts of the
   * learner "tutor"; that write is stated there and is not part of the
   * tutor's submission.
   */
  datatype SessionRun = Raised(message: string) | Ran(result: SessionResult)

  /** The `meta` dictionary: the unverified flag, and on a completed session its score and errors. */
  datatype PronMeta = PronMeta(unverifiedPronunciation: bool, score: Option<real>, errors: Option<seq<Entry>>)

  datatype Outcome = Outcome(passed: bool, feedback: string, meta: PronMeta)

  const TextOnlyMessage: string :=
    "Pronunciation cannot be verified from text. Use voice input for production checks, or this will be marked as unverified."

  /** The score a pass needs. */
  function Threshold(strictMode: bool): real
  {
    if strictMode then 0.95 else 0.85
  }

  /**
   * `assess_pronunciation`: `audioPath` is the recording's path (an empty
   * path counts as none) and `run` what the session gave for it.
   */
  function AssessPronunciation(audioPath: Option<string>, run: SessionRun, strictMode: bool): (o: Outcome)
  {
    if audioPath.Some? && audioPath.value != "" then
      match run
      case Ran(r) =>
        Outcome(r.score >= Threshold(strictMode) || r.correct, r.reply.feedbackEnglish, PronMeta(false, Some(r.score), Some(r.errors)))
      case Raised(msg) =>
        Outcome(false, "Pronunciation check failed: " + msg, PronMeta(false, None, None))
    else Outcome(false, TextOnlyMessage, PronMeta(true, None, None))
  }

  /**
   * Only a completed session over a recording can pass, and it passes exactly
   * when the score reaches the threshold or the session judged it correct;
   * the unverified flag is set exactly when there is no recording.
   */
  lemma PassRule(audioPath: Option<string>, run: SessionRun, strictMode: bool)
    ensures var o := AssessPronunciation(audioPath, run, strictMode);
      var heard := audioPath.Some? && audioPath.value != "";
      (o.passed <==> heard && run.Ran? && (run.result.score >= Threshold(strictMode) || run.result.correct))
      && (o.meta.unverifiedPronunciation <==> !heard)
      && (o.meta.score.Some? <==> heard && run.Ran?)
      && (!heard ==> o.feedback == TextOnlyMessage)
  {
  }

  /** Strict mode only takes passes away: whatever passes in strict mode passes in lenient mode. */
  lemma StrictIsStricter(audioPath: Option<string>, run: SessionRun)
    ensures AssessPronunciation(audioPath, run, true).passed ==> AssessPronunciation(audioPath, run, false).passed
  {
  }

  /** A session judged correct passes in either mode, whatever its score. */
  lemma CorrectAlwaysPasses(path: string, r: SessionResult, strictMode: bool)
    requires path != "" && r.correct
    ensures AssessPronunciation(Some(path), Ran(r), strictMode).passed
  {
  }
}
