/**
 * The learner profile of the grammar and drill games: two embedding
 * centroids moved by exponential moving averages, topic mastery, chapter
 * gates, bounded windows of recent answers, and its persistence as one row
 * per user. SQLite and JSON text are modelled as a map of parsed rows.
 */
module GameProfile {
  import opened Wrappers
  import opened Sorting
  import opened Tables

  const EmbedDims: nat := 4096

  const DefaultTopics: seq<string> := ["sandhi", "dhatu", "karaka", "suffix", "conjugation", "phonology"]

  const ChapterOrder: seq<string> := ["ch2", "ch3", "ch4", "ch5", "ch6", "ch7", "ch8", "ch9"]

  const MaxRecentErrors: nat := 50
  const MaxRecentScores: nat := 20

  function ZeroVec(): (v: seq<real>)
    ensures |v| == EmbedDims && forall i :: 0 <= i < |v| ==> v[i] == 0.0
  {
    seq(EmbedDims, _ => 0.0)
  }

  /** `_ema`: `current` unchanged when the lengths differ, else (1 - alpha)·c + alpha·n per element. */
  function Ema(current: seq<real>, sample: seq<real>, alpha: real): (r: seq<real>)
    ensures |current| != |sample| ==> r == current
    ensures |r| == |current|
  {
    if |current| != |sample| then current
    else seq(|current|, i requires 0 <= i < |current| => current[i] * (1.0 - alpha) + sample[i] * alpha)
  }

  /** With 0 <= alpha <= 1 every coordinate of the average lies between the old and the sampled value. */
  lemma EmaBetween(current: seq<real>, sample: seq<real>, alpha: real, i: nat)
    requires 0.0 <= alpha <= 1.0 && |current| == |sample| && i < |current|
    ensures var r := Ema(current, sample, alpha)[i];
      (current[i] <= sample[i] ==> current[i] <= r <= sample[i]) && (sample[i] <= current[i] ==> sample[i] <= r <= current[i])
  {
    var r := Ema(current, sample, alpha)[i];
    var d := sample[i] - current[i];
    assert r == current[i] + alpha * d;
    if d >= 0.0 {
      assert 0.0 <= alpha * d && (1.0 - alpha) * d >= 0.0;
    } else {
      assert alpha * d <= 0.0 && (1.0 - alpha) * d <= 0.0;
    }
  }

  // ---------------------------------------------------------------------------
  // The profile

  datatype ChunkState = ChunkState(stability: real, difficulty: real, due: string)

  datatype RecentError = RecentError(chunkId: string, learnerAnswer: string, correct: bool, timestamp: string)

  function DefaultTopicMastery(): (t: Table<real>)
    ensures |t| == |DefaultTopics| && forall i :: 0 <= i < |t| ==> t[i] == (DefaultTopics[i], 0.0)
  {
    seq(|DefaultTopics|, i requires 0 <= i < |DefaultTopics| => (DefaultTopics[i], 0.0))
  }

  lemma DefaultTopicMasteryDistinct()
    ensures DistinctKeys(DefaultTopicMastery())
  {
    var t := DefaultTopicMastery();
    assert forall i :: 0 <= i < 6 ==> t[i].0 == DefaultTopics[i];
    assert DefaultTopics[0][1] == 'a' && DefaultTopics[1][1] == 'h' && DefaultTopics[2][1] == 'a';
    assert DefaultTopics[3][1] == 'u' && DefaultTopics[4][1] == 'o' && DefaultTopics[5][1] == 'h';
    assert DefaultTopics[0][0] == 's' && DefaultTopics[2][0] == 'k' && DefaultTopics[3][0] == 's';
    assert DefaultTopics[1][0] == 'd' && DefaultTopics[5][0] == 'p' && DefaultTopics[4][0] == 'c';
  }

  function LockedChapters(): (m: map<string, string>)
    ensures m.Keys == set c | c in ChapterOrder
    ensures forall c :: c in m ==> m[c] == "locked"
  {
    map c | c in ChapterOrder :: "locked"
  }

  /** The snapshot of a profile, as `save_profile` writes it and `load_profile` reads it. */
  datatype ProfileData = ProfileData(
    userId: string, chunkStates: map<string, ChunkState>, weaknessCentroid: seq<real>,
    strengthCentroid: seq<real>, topicMastery: Table<real>, chapterProgress: map<string, string>,
    recentErrors: seq<RecentError>, seenDrillIds: set<string>, avgRecentScore: real, recentScores: seq<real>)

  /** `__post_init__`: an empty topic table gets the six default topics, an empty chapter map the locked curriculum with ch2 active. */
  function PostInit(d: ProfileData): (r: ProfileData)
    requires DistinctKeys(d.topicMastery)
    ensures DistinctKeys(r.topicMastery) && r.topicMastery != [] && r.chapterProgress != map[]
    ensures d.topicMastery != [] ==> r.topicMastery == d.topicMastery
    ensures d.chapterProgress != map[] ==> r.chapterProgress == d.chapterProgress
    ensures r.(topicMastery := d.topicMastery, chapterProgress := d.chapterProgress) == d
  {
    DefaultTopicMasteryDistinct();
    assert |DefaultTopicMastery()| == 6;
    assert "ch2" in LockedChapters()["ch2" := "active"];
    d.(topicMastery := if d.topicMastery == [] then DefaultTopicMastery() else d.topicMastery,
       chapterProgress := if d.chapterProgress == map[] then LockedChapters()["ch2" := "active"] else d.chapterProgress)
  }

  /** `UserProfile(user_id=...)` with every other field at its default. */
  function NewProfileData(userId: string): ProfileData
  {
    PostInit(ProfileData(userId, map[], ZeroVec(), ZeroVec(), [], map[], [], {}, 0.5, []))
  }

  /** A fresh profile has the six default topics at 0.0 and only ch2 active, so it starts in ch2. */
  lemma NewProfileDefaults(userId: string)
    ensures var d := NewProfileData(userId);
      |d.topicMastery| == 6 && (forall i :: 0 <= i < 6 ==> d.topicMastery[i] == (DefaultTopics[i], 0.0))
      && d.chapterProgress.Keys == set c | c in ChapterOrder
      && (forall c :: c in d.chapterProgress ==> (d.chapterProgress[c] == "active" <==> c == "ch2"))
      && FirstActive(d.chapterProgress, 0) == "ch2"
      && TargetDifficulty(d.avgRecentScore) == 0.6
  {
    var d := NewProfileData(userId);
    assert ChapterOrder[0] == "ch2" && Active(d.chapterProgress, "ch2");
  }

  function Sum(s: seq<real>): real
  {
    if s == [] then 0.0 else Sum(s[..|s| - 1]) + s[|s| - 1]
  }

  function Mean(s: seq<real>): real
    requires s != []
  {
    Sum(s) / |s| as real
  }

  lemma {:induction false} SumBounds(s: seq<real>)
    requires forall i :: 0 <= i < |s| ==> 0.0 <= s[i] <= 1.0
    ensures 0.0 <= Sum(s) <= |s| as real
  {
    if s != [] {
      SumBounds(s[..|s| - 1]);
    }
  }

  /** The mean of scores in [0, 1] is in [0, 1]. */
  lemma MeanBounds(s: seq<real>)
    requires s != [] && forall i :: 0 <= i < |s| ==> 0.0 <= s[i] <= 1.0
    ensures 0.0 <= Mean(s) <= 1.0
  {
    SumBounds(s);
  }

  /** `target_difficulty`. */
  function TargetDifficulty(avg: real): real
  {
    avg * 0.8 + 0.2
  }

  /** The difficulty grows with the average and lies in [0.2, 1.0] for an average in [0, 1]. */
  lemma TargetDifficultyRange(a: real, b: real)
    ensures 0.0 <= a <= 1.0 ==> 0.2 <= TargetDifficulty(a) <= 1.0
    ensures a <= b ==> TargetDifficulty(a) <= TargetDifficulty(b)
  {
  }

  /** The first active chapter from position `i` of `order` on, else the last chapter of `order`. */
  function FirstActiveIn(order: seq<string>, progress: map<string, string>, i: nat): (r: string)
    requires order != [] && i <= |order|
    ensures r in order
    decreases |order| - i
  {
    if i == |order| then order[|order| - 1]
    else if order[i] in progress && progress[order[i]] == "active" then order[i]
    else FirstActiveIn(order, progress, i + 1)
  }

  /** The first active chapter from position `i` of the curriculum on, else "ch9". */
  function FirstActive(progress: map<string, string>, i: nat): (r: string)
    requires i <= |ChapterOrder|
    ensures r in ChapterOrder
  {
    FirstActiveIn(ChapterOrder, progress, i)
  }

  predicate Active(progress: map<string, string>, c: string)
  {
    c in progress && progress[c] == "active"
  }

  /** The scan picks an active chapter with no active one before it, or falls back to the last when none is active. */
  lemma {:induction false} FirstActiveInSpec(order: seq<string>, progress: map<string, string>, i: nat)
    requires order != [] && i <= |order|
    ensures var r := FirstActiveIn(order, progress, i);
      (exists k :: i <= k < |order| && order[k] == r && Active(progress, r)
        && forall j :: i <= j < k ==> !Active(progress, order[j]))
      || (r == order[|order| - 1] && forall j :: i <= j < |order| ==> !Active(progress, order[j]))
    decreases |order| - i
  {
    if i < |order| && !Active(progress, order[i]) {
      FirstActiveInSpec(order, progress, i + 1);
    }
  }

  /** The chapter chosen is active and no earlier chapter is, or no chapter is active and it is "ch9". */
  lemma CurrentChapterSpec(progress: map<string, string>, i: nat)
    requires i <= |ChapterOrder|
    ensures var r := FirstActive(progress, i);
      (exists k :: i <= k < |ChapterOrder| && ChapterOrder[k] == r && Active(progress, r)
        && forall j :: i <= j < k ==> !Active(progress, ChapterOrder[j]))
      || (r == "ch9" && forall j :: i <= j < |ChapterOrder| ==> !Active(progress, ChapterOrder[j]))
  {
    FirstActiveInSpec(ChapterOrder, progress, i);
  }

  class UserProfile {
    var userId: string
    var chunkStates: map<string, ChunkState>
    var weaknessCentroid: seq<real>
    var strengthCentroid: seq<real>
    var topicMastery: Table<real>
    var chapterProgress: map<string, string>
    var recentErrors: seq<RecentError>
    var seenDrillIds: set<string>
    var avgRecentScore: real
    var recentScores: seq<real>

    ghost predicate Valid()
      reads this
    {
      DistinctKeys(topicMastery)
    }

    /** The dataclass constructor followed by `__post_init__`. */
    constructor (d: ProfileData)
      requires DistinctKeys(d.topicMastery)
      ensures Valid()
      ensures Data() == PostInit(d)
    {
      var e := PostInit(d);
      userId := e.userId;
      chunkStates := e.chunkStates;
      weaknessCentroid := e.weaknessCentroid;
      strengthCentroid := e.strengthCentroid;
      topicMastery := e.topicMastery;
      chapterProgress := e.chapterProgress;
      recentErrors := e.recentErrors;
      seenDrillIds := e.seenDrillIds;
      avgRecentScore := e.avgRecentScore;
      recentScores := e.recentScores;
    }

    function Data(): ProfileData
      reads this
    {
      ProfileData(userId, chunkStates, weaknessCentroid, strengthCentroid, topicMastery, chapterProgress,
        recentErrors, seenDrillIds, avgRecentScore, recentScores)
    }

    /** `weak_topics`: the topics below the threshold (0.5 by default), in table order. */
    function WeakTopics(threshold: real): (r: seq<string>)
      reads this
      ensures forall k :: k in r <==> exists i :: 0 <= i < |topicMastery| && topicMastery[i].0 == k && topicMastery[i].1 < threshold
    {
      KeysWhere(topicMastery, s => s < threshold)
    }

    /** `strong_topics`: the topics at or above the threshold (0.7 by default). */
    function StrongTopics(threshold: real): (r: seq<string>)
      reads this
      ensures forall k :: k in r <==> exists i :: 0 <= i < |topicMastery| && topicMastery[i].0 == k && topicMastery[i].1 >= threshold
    {
      KeysWhere(topicMastery, s => s >= threshold)
    }

    /** `current_chapter`: scan the curriculum for the first active chapter. */
    method CurrentChapter() returns (c: string)
      ensures c == FirstActive(chapterProgress, 0)
    {
      var i := 0;
      while i < |ChapterOrder|
        invariant i <= |ChapterOrder|
        invariant FirstActive(chapterProgress, i) == FirstActive(chapterProgress, 0)
      {
        if ChapterOrder[i] in chapterProgress && chapterProgress[ChapterOrder[i]] == "active" {
          return ChapterOrder[i];
        }
        i := i + 1;
      }
      return ChapterOrder[|ChapterOrder| - 1];
    }

    /**
     * `update_profile`: record the chunk, move one centroid, update the
     * topic's mastery, and push the answer into both windows. `now` is the
     * UTC time in ISO format.
     */
    method Update(chunkId: string, embedding: seq<real>, correct: bool, topic: string, learnerAnswer: string, alpha: real, now: string)
      requires Valid()
      modifies this
      ensures Valid()
      ensures Data() == Updated(old(Data()), chunkId, embedding, correct, topic, learnerAnswer, alpha, now)
    {
      RecordChunk(chunkId, now);
      MoveCentroid(embedding, correct, alpha);
      topicMastery := UpdatedMastery(topicMastery, topic, correct);
      PushAnswer(chunkId, correct, learnerAnswer, now);
    }

    method RecordChunk(chunkId: string, now: string)
      modifies this
      ensures Data() == old(Data()).(chunkStates := AddChunk(old(chunkStates), chunkId, now))
    {
      if chunkId !in chunkStates {
        chunkStates := chunkStates[chunkId := ChunkState(1.0, 0.5, Take(now, 10))];
      }
    }

    method MoveCentroid(embedding: seq<real>, correct: bool, alpha: real)
      modifies this
      ensures Data() == old(Data()).(
        weaknessCentroid := if |embedding| == EmbedDims && !correct then Ema(old(weaknessCentroid), embedding, alpha) else old(weaknessCentroid),
        strengthCentroid := if |embedding| == EmbedDims && correct then Ema(old(strengthCentroid), embedding, alpha) else old(strengthCentroid))
    {
      if |embedding| == EmbedDims {
        if !correct {
          weaknessCentroid := Ema(weaknessCentroid, embedding, alpha);
        } else {
          strengthCentroid := Ema(strengthCentroid, embedding, alpha);
        }
      }
    }

    method PushAnswer(chunkId: string, correct: bool, learnerAnswer: string, now: string)
      modifies this
      ensures Data() == old(Data()).(
        recentErrors := Push(old(recentErrors), RecentError(chunkId, learnerAnswer, correct, now), MaxRecentErrors),
        recentScores := Push(old(recentScores), Score(correct), MaxRecentScores),
        avgRecentScore := Mean(Push(old(recentScores), Score(correct), MaxRecentScores)))
    {
      recentErrors := recentErrors + [RecentError(chunkId, learnerAnswer, correct, now)];
      recentErrors := Last(recentErrors, MaxRecentErrors);
      var score := if correct then 1.0 else 0.0;
      recentScores := recentScores + [score];
      recentScores := Last(recentScores, MaxRecentScores);
      if recentScores != [] {
        avgRecentScore := Mean(recentScores);
      }
    }
  }

  /** The chunk table after an answer: an unseen chunk is scheduled for today, a known one is kept. */
  function AddChunk(states: map<string, ChunkState>, chunkId: string, now: string): (r: map<string, ChunkState>)
    ensures r.Keys == states.Keys + {chunkId}
    ensures forall c :: c in states ==> r[c] == states[c]
    ensures chunkId !in states ==> r[chunkId] == ChunkState(1.0, 0.5, Take(now, 10))
  {
    if chunkId in states then states else states[chunkId := ChunkState(1.0, 0.5, Take(now, 10))]
  }

  /** A bounded window after appending `x`: at most `n` entries, the newest last, the oldest dropped first. */
  function Push<T>(window: seq<T>, x: T, n: nat): (r: seq<T>)
    requires n > 0
    ensures 1 <= |r| <= n && |r| <= |window| + 1 && r[|r| - 1] == x
    ensures r == (window + [x])[|window| + 1 - |r|..]
    ensures |window| < n ==> r == window + [x]
  {
    Last(window + [x], n)
  }

  function Score(correct: bool): real
  {
    if correct then 1.0 else 0.0
  }

  /** A window of 0/1 scores stays a window of 0/1 scores, so its mean stays in [0, 1]. */
  lemma PushScoreInRange(scores: seq<real>, correct: bool)
    requires forall i :: 0 <= i < |scores| ==> 0.0 <= scores[i] <= 1.0
    ensures var r := Push(scores, Score(correct), MaxRecentScores);
      (forall i :: 0 <= i < |r| ==> 0.0 <= r[i] <= 1.0) && 0.0 <= Mean(r) <= 1.0
  {
    var r := Push(scores, Score(correct), MaxRecentScores);
    var all := scores + [Score(correct)];
    assert forall i :: 0 <= i < |r| ==> r[i] == all[|all| - |r| + i];
    MeanBounds(r);
  }

  /** The profile after one answer, as `update_profile` leaves it. */
  function Updated(d: ProfileData, chunkId: string, embedding: seq<real>, correct: bool, topic: string,
                   learnerAnswer: string, alpha: real, now: string): (r: ProfileData)
    requires DistinctKeys(d.topicMastery)
    ensures DistinctKeys(r.topicMastery)
    ensures r.userId == d.userId && r.seenDrillIds == d.seenDrillIds && r.chapterProgress == d.chapterProgress
    ensures r.weaknessCentroid == d.weaknessCentroid || r.strengthCentroid == d.strengthCentroid
    ensures |embedding| != EmbedDims ==> r.weaknessCentroid == d.weaknessCentroid && r.strengthCentroid == d.strengthCentroid
    ensures correct ==> r.weaknessCentroid == d.weaknessCentroid
    ensures !correct ==> r.strengthCentroid == d.strengthCentroid
  {
    var scores := Push(d.recentScores, Score(correct), MaxRecentScores);
    d.(chunkStates := AddChunk(d.chunkStates, chunkId, now),
       weaknessCentroid := if |embedding| == EmbedDims && !correct then Ema(d.weaknessCentroid, embedding, alpha) else d.weaknessCentroid,
       strengthCentroid := if |embedding| == EmbedDims && correct then Ema(d.strengthCentroid, embedding, alpha) else d.strengthCentroid,
       topicMastery := UpdatedMastery(d.topicMastery, topic, correct),
       recentErrors := Push(d.recentErrors, RecentError(chunkId, learnerAnswer, correct, now), MaxRecentErrors),
       recentScores := scores,
       avgRecentScore := Mean(scores))
  }

  /** Scores are 0.0 or 1.0, so the average after an answer is in [0, 1] and so is the next difficulty. */
  lemma UpdatedAverageInRange(d: ProfileData, chunkId: string, embedding: seq<real>, correct: bool, topic: string,
                              learnerAnswer: string, alpha: real, now: string)
    requires DistinctKeys(d.topicMastery)
    requires forall i :: 0 <= i < |d.recentScores| ==> 0.0 <= d.recentScores[i] <= 1.0
    ensures var r := Updated(d, chunkId, embedding, correct, topic, learnerAnswer, alpha, now);
      0.0 <= r.avgRecentScore <= 1.0 && 0.2 <= TargetDifficulty(r.avgRecentScore) <= 1.0
  {
    PushScoreInRange(d.recentScores, correct);
    var r := Updated(d, chunkId, embedding, correct, topic, learnerAnswer, alpha, now);
    TargetDifficultyRange(r.avgRecentScore, 0.0);
  }

  /** New mastery after one answer: 0.9·m, plus 0.1 when correct. */
  function MasteryStep(m: real, correct: bool): (r: real)
    ensures 0.0 <= m <= 1.0 ==> 0.0 <= r <= 1.0
    ensures correct && m <= 1.0 ==> m <= r
    ensures !correct && 0.0 <= m ==> r <= m
  {
    m * 0.9 + (if correct then 0.1 else 0.0)
  }

  /** The mastery table after one answer on `topic`; an unknown topic leaves it unchanged. */
  function UpdatedMastery(t: Table<real>, topic: string, correct: bool): (r: Table<real>)
    requires DistinctKeys(t)
    ensures DistinctKeys(r)
    ensures |r| == |t| && forall i :: 0 <= i < |t| ==> r[i].0 == t[i].0
    ensures forall i :: 0 <= i < |t| ==> r[i].1 == if t[i].0 == topic then MasteryStep(t[i].1, correct) else t[i].1
  {
    if HasKey(t, topic) then
      var v := Lookup(t, topic);
      var r := SetValue(t, topic, MasteryStep(v, correct));
      assert forall i :: 0 <= i < |t| && t[i].0 == topic ==> t[i].1 == v;
      r
    else t
  }

  /** Mastery stays in [0, 1] under any sequence of answers. */
  lemma MasteryStaysInRange(t: Table<real>, topic: string, correct: bool)
    requires DistinctKeys(t) && forall i :: 0 <= i < |t| ==> 0.0 <= t[i].1 <= 1.0
    ensures var r := UpdatedMastery(t, topic, correct); forall i :: 0 <= i < |r| ==> 0.0 <= r[i].1 <= 1.0
  {
  }

  /** With the default thresholds no topic is both weak and strong. */
  lemma WeakAndStrongDisjoint(p: UserProfile, k: string)
    requires p.Valid() && k in p.WeakTopics(0.5)
    ensures k !in p.StrongTopics(0.7)
  {
  }

  // ---------------------------------------------------------------------------
  // Persistence: one row per user; each JSON column is missing, unparsable, or a value

  datatype StoredRow = StoredRow(
    chunkStates: Slot<map<string, ChunkState>>, weaknessCentroid: Slot<seq<real>>,
    strengthCentroid: Slot<seq<real>>, topicMastery: Slot<Table<real>>,
    chapterProgress: Slot<map<string, string>>, recentErrors: Slot<seq<RecentError>>,
    seenDrillIds: Slot<set<string>>, avgRecentScore: Option<real>, recentScores: Slot<seq<real>>)

  /** A JSON object column parses to a table with distinct keys. */
  predicate WellFormedRow(row: StoredRow)
  {
    row.topicMastery.Present? ==> DistinctKeys(row.topicMastery.value)
  }

  /** `save_profile`'s column values. */
  function RowOf(d: ProfileData): (row: StoredRow)
    ensures DistinctKeys(d.topicMastery) ==> WellFormedRow(row)
  {
    StoredRow(Present(d.chunkStates), Present(d.weaknessCentroid), Present(d.strengthCentroid),
      Present(d.topicMastery), Present(d.chapterProgress), Present(Last(d.recentErrors, MaxRecentErrors)),
      Present(d.seenDrillIds), Some(d.avgRecentScore), Present(Last(d.recentScores, MaxRecentScores)))
  }

  /**
   * `row["avg_recent_score"] or 0.5` as written: Python's `or` replaces every
   * falsy value, so a stored 0.0 comes back as 0.5 just like a NULL.
   */
  function LoadAvgAsWritten(stored: Option<real>): (r: real)
    ensures stored.Some? && stored.value != 0.0 ==> r == stored.value
    ensures stored.None? || stored.value == 0.0 ==> r == 0.5
  {
    if stored.None? || stored.value == 0.0 then 0.5 else stored.value
  }

  /** A learner whose recent answers were all wrong comes back with the default average. */
  lemma ZeroAverageReloadsAsDefault()
    ensures LoadAvgAsWritten(RowOf(NewProfileData("u").(avgRecentScore := 0.0)).avgRecentScore) == 0.5
  {
  }

  /** The intended reading: only a missing value falls back to the 0.5 default. */
  function LoadAvg(stored: Option<real>): (r: real)
    ensures stored.Some? ==> r == stored.value
    ensures stored.None? ==> r == 0.5
  {
    stored.GetOr(0.5)
  }

  /** `load_profile` for an existing row, before `__post_init__`. */
  function LoadedData(userId: string, row: StoredRow): (d: ProfileData)
    requires WellFormedRow(row)
    ensures DistinctKeys(d.topicMastery)
    ensures |d.recentErrors| <= MaxRecentErrors && |d.recentScores| <= MaxRecentScores
    ensures d.avgRecentScore == LoadAvgAsWritten(row.avgRecentScore)
  {
    DefaultTopicMasteryDistinct();
    ProfileData(userId, row.chunkStates.OrElse(map[]), row.weaknessCentroid.OrElse(ZeroVec()),
      row.strengthCentroid.OrElse(ZeroVec()), row.topicMastery.OrElse(DefaultTopicMastery()),
      row.chapterProgress.OrElse(LockedChapters()), Last(row.recentErrors.OrElse([]), MaxRecentErrors),
      row.seenDrillIds.OrElse({}), LoadAvgAsWritten(row.avgRecentScore), Last(row.recentScores.OrElse([]), MaxRecentScores))
  }

  /**
   * Loading what was saved gives back the profile, windows cut to their caps,
   * except that an average of 0.0 comes back as 0.5.
   */
  lemma SaveLoadRoundTrip(d: ProfileData)
    requires DistinctKeys(d.topicMastery) && d.topicMastery != [] && d.chapterProgress != map[]
    ensures PostInit(LoadedData(d.userId, RowOf(d))) ==
      d.(recentErrors := Last(d.recentErrors, MaxRecentErrors), recentScores := Last(d.recentScores, MaxRecentScores),
         avgRecentScore := if d.avgRecentScore == 0.0 then 0.5 else d.avgRecentScore)
  {
  }

  /** The intended load: the stored average is kept whatever its value. */
  function LoadedDataCorrected(userId: string, row: StoredRow): (d: ProfileData)
    requires WellFormedRow(row)
    ensures DistinctKeys(d.topicMastery)
    ensures d.avgRecentScore == LoadAvg(row.avgRecentScore)
    ensures d.(avgRecentScore := 0.0) == LoadedData(userId, row).(avgRecentScore := 0.0)
  {
    LoadedData(userId, row).(avgRecentScore := LoadAvg(row.avgRecentScore))
  }

  /** With the intended load, saving and reloading gives back the profile, windows cut to their caps. */
  lemma SaveLoadRoundTripCorrected(d: ProfileData)
    requires DistinctKeys(d.topicMastery) && d.topicMastery != [] && d.chapterProgress != map[]
    ensures PostInit(LoadedDataCorrected(d.userId, RowOf(d))) ==
      d.(recentErrors := Last(d.recentErrors, MaxRecentErrors), recentScores := Last(d.recentScores, MaxRecentScores))
  {
  }

  /** A row whose chapter column is NULL loads with every chapter locked, so the learner is placed in ch9. */
  lemma NullChaptersLoadAsCh9(userId: string, row: StoredRow)
    requires WellFormedRow(row) && !row.chapterProgress.Present?
    ensures FirstActive(PostInit(LoadedData(userId, row)).chapterProgress, 0) == "ch9"
  {
    var d := LoadedData(userId, row);
    assert d.chapterProgress == LockedChapters();
    assert "ch2" in d.chapterProgress;
    assert PostInit(d).chapterProgress == LockedChapters();
    LockedStartsInCh9();
  }

  /** With every chapter locked no chapter is active, so the scan ends in ch9. */
  lemma LockedStartsInCh9()
    ensures FirstActive(LockedChapters(), 0) == "ch9"
  {
    var m := LockedChapters();
    CurrentChapterSpec(m, 0);
    forall k | 0 <= k < |ChapterOrder| ensures !Active(m, ChapterOrder[k]) {
      assert ChapterOrder[k] in m;
    }
  }

  /** The `user_profiles` table. */
  class Database {
    var rows: map<string, StoredRow>

    ghost predicate Valid()
      reads this
    {
      forall u :: u in rows ==> WellFormedRow(rows[u])
    }

    constructor ()
      ensures Valid() && rows == map[]
    {
      rows := map[];
    }

    /** `save_profile`: insert or replace the user's row. */
    method Save(p: UserProfile)
      requires Valid() && p.Valid()
      modifies this
      ensures Valid()
      ensures rows == old(rows)[p.userId := RowOf(p.Data())]
    {
      rows := rows[p.userId := RowOf(p.Data())];
    }

    /** `load_profile`: the stored row with its defaults, or a new profile. */
    method Load(userId: string) returns (p: UserProfile)
      requires Valid()
      ensures fresh(p) && p.Valid()
      ensures userId !in rows ==> p.Data() == NewProfileData(userId)
      ensures userId in rows ==> p.Data() == PostInit(LoadedData(userId, rows[userId]))
    {
      if userId !in rows {
        p := new UserProfile(ProfileData(userId, map[], ZeroVec(), ZeroVec(), [], map[], [], {}, 0.5, []));
      } else {
        p := new UserProfile(LoadedData(userId, rows[userId]));
      }
    }
  }
}
