/**
 * The tutor's chat history and topic progress in the browser, each kept
 * as JSON under one localStorage key and modelled as a `Slot` field of a
 * `TutorStore`. The chat history is capped at its latest 40 messages.
 */
module TutorStorage {
  import opened Wrappers

  /** The number of messages kept (the last 20 turns). */
  const MaxMessages: nat := 40

  datatype Message = Message(role: string, content: string)

  datatype Progress = Progress(topicsIntroduced: seq<string>, topicsMastered: seq<string>, lastTopic: Option<string>)

  /** A `Partial<TutorProgress>` or a parsed object; `lastTopic` may be set to null, which differs from leaving it out. */
  datatype ProgressPatch = ProgressPatch(topicsIntroduced: Option<seq<string>>, topicsMastered: Option<seq<string>>, lastTopic: Option<Option<string>>)

  /** `DEFAULT_PROGRESS`. */
  const DefaultProgress: Progress := Progress([], [], None)

  /** `msgs.slice(-40)`: the latest 40 messages, or all of them when there are fewer. */
  function Latest(msgs: seq<Message>): (r: seq<Message>)
    ensures |r| == if |msgs| <= MaxMessages then |msgs| else MaxMessages
    ensures r == msgs[|msgs| - |r|..]
  {
    if |msgs| <= MaxMessages then msgs else msgs[|msgs| - MaxMessages..]
  }

  /** Keeping the latest messages twice is keeping them once, and appending to a short history keeps it all. */
  lemma LatestLaws(msgs: seq<Message>, m: Message)
    ensures Latest(Latest(msgs)) == Latest(msgs)
    ensures |msgs| < MaxMessages ==> Latest(msgs + [m]) == msgs + [m]
    ensures |msgs| > 0 ==> Latest(msgs)[|Latest(msgs)| - 1] == msgs[|msgs| - 1]
  {
  }

  /** `{ ...base, ...patch }`. */
  function Overlay(base: Progress, patch: ProgressPatch): (r: Progress)
    ensures r.topicsIntroduced == patch.topicsIntroduced.GetOr(base.topicsIntroduced)
    ensures r.topicsMastered == patch.topicsMastered.GetOr(base.topicsMastered)
    ensures r.lastTopic == patch.lastTopic.GetOr(base.lastTopic)
  {
    Progress(patch.topicsIntroduced.GetOr(base.topicsIntroduced), patch.topicsMastered.GetOr(base.topicsMastered),
             patch.lastTopic.GetOr(base.lastTopic))
  }

  /** The object `JSON.stringify` writes: every field set. */
  function AsPatch(p: Progress): (patch: ProgressPatch)
    ensures patch.topicsIntroduced.Some? && patch.topicsMastered.Some? && patch.lastTopic.Some?
  {
    ProgressPatch(Some(p.topicsIntroduced), Some(p.topicsMastered), Some(p.lastTopic))
  }

  /**
   * A written object reads back as itself over the defaults, and saving a
   * patch then reading gives the patch over what was read before.
   */
  lemma ProgressReadsBack(current: Progress, patch: ProgressPatch)
    ensures Overlay(DefaultProgress, AsPatch(current)) == current
    ensures Overlay(DefaultProgress, AsPatch(Overlay(current, patch))) == Overlay(current, patch)
    ensures patch == ProgressPatch(None, None, None) ==> Overlay(current, patch) == current
  {
  }

  class TutorStore {
    /** `typeof window !== "undefined"`. */
    const browser: bool
    var messages: Slot<seq<Message>>
    var progress: Slot<ProgressPatch>

    constructor(inBrowser: bool)
      ensures browser == inBrowser && messages == Absent && progress == Absent
    {
      browser := inBrowser;
      messages := Absent;
      progress := Absent;
    }

    /** `getTutorMessages`: [] on the server, without data or on a parse error. */
    function Messages(): (ms: seq<Message>)
      reads this
      ensures !browser || !messages.Present? ==> ms == []
      ensures browser && messages.Present? ==> ms == messages.value
    {
      if browser then messages.OrElse([]) else []
    }

    /** `saveTutorMessages`: only the latest 40 are written; nothing on the server. */
    method SaveMessages(msgs: seq<Message>)
      modifies this
      ensures browser ==> messages == Present(Latest(msgs)) && |Messages()| <= MaxMessages
      ensures !browser ==> messages == old(messages)
      ensures progress == old(progress)
    {
      if !browser {
        return;
      }
      messages := Present(Latest(msgs));
    }

    /** `getTutorProgress`: the stored fields over the defaults; the defaults on the server, without data or on a parse error. */
    function GetProgress(): (p: Progress)
      reads this
      ensures !browser || !progress.Present? ==> p == DefaultProgress
      ensures browser && progress.Present? ==> p == Overlay(DefaultProgress, progress.value)
    {
      if browser && progress.Present? then Overlay(DefaultProgress, progress.value) else DefaultProgress
    }

    /** `saveTutorProgress`: the patch over the current progress, written in full; nothing on the server. */
    method SaveProgress(patch: ProgressPatch)
      modifies this
      ensures browser ==> progress == Present(AsPatch(Overlay(old(GetProgress()), patch)))
      ensures browser ==> GetProgress() == Overlay(old(GetProgress()), patch)
      ensures !browser ==> progress == old(progress)
      ensures messages == old(messages)
    {
      if !browser {
        return;
      }
      var next := Overlay(GetProgress(), patch);
      progress := Present(AsPatch(next));
      ProgressReadsBack(next, ProgressPatch(None, None, None));
    }
  }
}
