/**
 * The engine shared by the games: the challenge record with its defaults,
 * the evaluation result, and the profile update, speech and explanation
 * services every game inherits. The corpus and the speech provider are
 * passed in as values of function type; either may be absent.
 */
module GameEngine {
  import opened Wrappers
  import opened Tables
  import opened JsonValues
  import opened GameProfile

  /**
   * One challenge. `correctAnswer` is a string or a list of accepted strings;
   * `meta` holds game-specific values of type `M`.
   */
  datatype Challenge<M> = Challenge(
    challengeId: string, gameType: string, prompt: string, correctAnswer: Json,
    sourceChunkIds: seq<string>, topic: string, difficulty: real, meta: Table<M>)

  /** The dataclass constructor with `__post_init__`: a missing chunk list or meta becomes empty. */
  function NewChallenge<M>(challengeId: string, gameType: string, prompt: string, correctAnswer: Json,
                           sourceChunkIds: Option<seq<string>>, topic: string, difficulty: real,
                           meta: Option<Table<M>>): (c: Challenge<M>)
    ensures sourceChunkIds.None? ==> c.sourceChunkIds == []
    ensures sourceChunkIds.Some? ==> c.sourceChunkIds == sourceChunkIds.value
    ensures meta.None? ==> c.meta == []
    ensures meta.Some? ==> c.meta == meta.value
    ensures c.challengeId == challengeId && c.gameType == gameType && c.prompt == prompt
      && c.correctAnswer == correctAnswer && c.topic == topic && c.difficulty == difficulty
  {
    Challenge(challengeId, gameType, prompt, correctAnswer, sourceChunkIds.GetOr([]), topic, difficulty, meta.GetOr([]))
  }

  datatype EvalResult = EvalResult(correct: bool, ruleId: Option<string>, explanation: string, feedback: string, chunkId: string)

  /** `EvalResult(correct=..., ...)` with the defaults of the fields not given. */
  function Verdict(correct: bool, explanation: string, feedback: string): (r: EvalResult)
    ensures r.ruleId.None? && r.chunkId == "" && r.correct == correct
  {
    EvalResult(correct, None, explanation, feedback, "")
  }

  /** A corpus chunk: its text and its metadata strings, each possibly missing. */
  datatype Chunk = Chunk(text: Option<string>, meta: Option<Table<string>>)

  /** The corpus: retrieval by query and result count, and the stored embedding of a chunk. */
  datatype Corpus = Corpus(retrieve: (string, nat) -> seq<Chunk>, getEmbedding: string -> Option<seq<real>>)

  /** What the speech provider returns. */
  datatype Audio = AudioBytes(bytes: seq<bv8>) | AudioUrl(url: string)

  datatype Explanation = Explanation(source: string, text: string, reference: string)

  /** The chunk an answer is credited to: the result's own, else the challenge's first source, else none. */
  function ChunkIdFor<M>(challenge: Challenge<M>, result: EvalResult): (id: string)
    ensures result.chunkId != "" ==> id == result.chunkId
    ensures result.chunkId == "" && challenge.sourceChunkIds != [] ==> id == challenge.sourceChunkIds[0]
    ensures id == "" <==> result.chunkId == "" && (challenge.sourceChunkIds == [] || challenge.sourceChunkIds[0] == "")
  {
    if result.chunkId != "" then result.chunkId
    else if challenge.sourceChunkIds != [] then challenge.sourceChunkIds[0]
    else ""
  }

  /** The embedding used for the profile: the corpus's, or [] without a corpus or without a stored vector. */
  function EmbeddingFor(corpus: Option<Corpus>, chunkId: string): (e: seq<real>)
    ensures corpus.None? ==> e == []
    ensures corpus.Some? && corpus.value.getEmbedding(chunkId).Some? ==> e == corpus.value.getEmbedding(chunkId).value
    ensures corpus.Some? && corpus.value.getEmbedding(chunkId).None? ==> e == []
  {
    if corpus.Some? then corpus.value.getEmbedding(chunkId).GetOr([]) else []
  }

  /** The explanation drawn from the first retrieved chunk; missing metadata falls back to "corpus" and "". */
  function ExplanationFrom(chunks: seq<Chunk>): (r: Explanation)
    ensures chunks == [] ==> r == Explanation("", "", "")
    ensures chunks != [] && chunks[0].text.Some? ==> r.text == chunks[0].text.value
    ensures chunks != [] && (chunks[0].meta.None? || !HasKey(chunks[0].meta.value, "source")) ==> r.source == "corpus"
  {
    if chunks == [] then Explanation("", "", "")
    else
      var meta := chunks[0].meta.GetOr([]);
      Explanation(GetOr(meta, "source", "corpus"), chunks[0].text.GetOr(""), GetOr(meta, "ref", ""))
  }

  /** The engine state every game shares. */
  class CoreEngine {
    const corpus: Option<Corpus>
    const tts: Option<(string, string) -> Audio>

    constructor (corpus: Option<Corpus>, tts: Option<(string, string) -> Audio>)
      ensures this.corpus == corpus && this.tts == tts
    {
      this.corpus := corpus;
      this.tts := tts;
    }

    /**
     * `update_profile`: credit the answer to a chunk, update the profile
     * with the chunk's embedding, the answer's correctness and the
     * challenge's topic, and save it. With no chunk nothing happens.
     */
    method UpdateProfile<M>(profile: UserProfile, db: Database, challenge: Challenge<M>, result: EvalResult,
                            learnerAnswer: string, now: string)
      requires profile.Valid() && db.Valid()
      modifies profile, db
      ensures profile.Valid() && db.Valid()
      ensures ChunkIdFor(challenge, result) == "" ==> profile.Data() == old(profile.Data()) && db.rows == old(db.rows)
      ensures ChunkIdFor(challenge, result) != "" ==>
        var id := ChunkIdFor(challenge, result);
        && profile.Data() == Updated(old(profile.Data()), id, EmbeddingFor(corpus, id), result.correct,
                                     challenge.topic, learnerAnswer, 0.1, now)
        && db.rows == old(db.rows)[profile.userId := RowOf(profile.Data())]
    {
      var chunkId := ChunkIdFor(challenge, result);
      if chunkId == "" {
        return;
      }
      var embedding := [];
      if corpus.Some? {
        var emb := corpus.value.getEmbedding(chunkId);
        if emb.Some? && emb.value != [] {
          embedding := emb.value;
        }
      }
      assert embedding == EmbeddingFor(corpus, chunkId);
      profile.Update(chunkId, embedding, result.correct, challenge.topic, learnerAnswer, 0.1, now);
      db.Save(profile);
    }

    /** `speak`: the provider's audio, or nothing without a provider. */
    method Speak(text: string, style: string) returns (audio: Option<Audio>)
      ensures tts.None? ==> audio.None?
      ensures tts.Some? ==> audio == Some(tts.value(text, style))
    {
      if tts.Some? {
        return Some(tts.value(text, style));
      }
      return None;
    }

    /** `explain`: the first of two chunks retrieved for the rule, or empty fields. */
    method Explain(ruleId: string) returns (e: Explanation)
      ensures corpus.None? ==> e == Explanation("", "", "")
      ensures corpus.Some? ==> e == ExplanationFrom(corpus.value.retrieve(ExplainQuery(ruleId), 2))
    {
      if corpus.Some? {
        var chunks := corpus.value.retrieve(ExplainQuery(ruleId), 2);
        if chunks != [] {
          var meta := chunks[0].meta.GetOr([]);
          return Explanation(GetOr(meta, "source", "corpus"), chunks[0].text.GetOr(""), GetOr(meta, "ref", ""));
        }
      }
      return Explanation("", "", "");
    }
  }

  /** The retrieval query for a rule's explanation. */
  function ExplainQuery(ruleId: string): (q: string)
    ensures |q| == |"Pāṇini sūtra "| + |ruleId| + |" Whitney"|
    ensures q[|"Pāṇini sūtra "|..|"Pāṇini sūtra "| + |ruleId|] == ruleId
  {
    "Pāṇini sūtra " + ruleId + " Whitney"
  }

  /** Without a corpus, an answer's embedding is empty, so neither centroid moves. */
  lemma NoCorpusNoCentroidChange(d: ProfileData, chunkId: string, correct: bool, topic: string, answer: string, now: string)
    requires DistinctKeys(d.topicMastery)
    ensures var r := Updated(d, chunkId, EmbeddingFor(None, chunkId), correct, topic, answer, 0.1, now);
      r.weaknessCentroid == d.weaknessCentroid && r.strengthCentroid == d.strengthCentroid
  {
  }
}
