/**
 * The keyword retrieval of the front end: `chunkText` packs the paragraphs
 * of the source text greedily into chunks of about 600 characters, and
 * `searchSource` (and the `/api/rag` route) rank the chunks by how many
 * query terms they contain. Reading `source.txt` is a parameter: `None`
 * stands for a file that cannot be read.
 */
module Rag {
  import opened Wrappers
  import opened Text
  import opened Sorting

  const ChunkSize: nat := 600
  /** `MAX_CHUNKS` of the library search. */
  const LibMaxChunks: nat := 3
  /** `MAX_CHUNKS` of the HTTP route. */
  const RouteMaxChunks: nat := 5

  // ---------------------------------------------------------------------------
  // Paragraphs: `text.split(/\n\n+/)`
  // ---------------------------------------------------------------------------

  predicate BlankLineAt(s: string, i: int)
    requires 0 <= i
  {
    i + 1 < |s| && s[i] == '\n' && s[i + 1] == '\n'
  }

  /** No two consecutive newlines. */
  predicate NoBlankLine(s: string)
  {
    forall i :: 0 <= i < |s| ==> !BlankLineAt(s, i)
  }

  /** The first index at or after `from` where two newlines meet, or |s|. */
  function FirstBlankLine(s: string, from: nat): (i: nat)
    requires from <= |s|
    ensures from <= i <= |s|
    ensures i < |s| ==> BlankLineAt(s, i)
    ensures forall j :: from <= j < i ==> !BlankLineAt(s, j)
    decreases |s| - from
  {
    if from == |s| then from
    else if BlankLineAt(s, from) then from
    else FirstBlankLine(s, from + 1)
  }

  /** The end of the newline run that starts at `i`. */
  function RunEnd(s: string, i: nat): (j: nat)
    requires i <= |s|
    ensures i <= j <= |s|
    ensures j < |s| ==> s[j] != '\n'
    ensures forall k :: i <= k < j ==> s[k] == '\n'
    decreases |s| - i
  {
    if i == |s| || s[i] != '\n' then i else RunEnd(s, i + 1)
  }

  /**
   * Splitting at every maximal run of two or more newlines. There is
   * always at least one piece, and no piece holds a blank line.
   */
  function Paragraphs(s: string): (ps: seq<string>)
    ensures |ps| >= 1
    ensures forall k :: 0 <= k < |ps| ==> NoBlankLine(ps[k])
    ensures NoBlankLine(s) ==> ps == [s]
    decreases |s|
  {
    var i := FirstBlankLine(s, 0);
    if i == |s| then [s]
    else
      var head := s[..i];
      assert forall j :: 0 <= j < |head| ==> (BlankLineAt(head, j) ==> BlankLineAt(s, j));
      [head] + Paragraphs(s[RunEnd(s, i)..])
  }

  // ---------------------------------------------------------------------------
  // Chunking
  // ---------------------------------------------------------------------------

  /** The loop state of `chunkText`: chunks pushed so far and the current buffer. */
  datatype Acc = Acc(chunks: seq<string>, current: string)

  /** `current += (current ? "\n\n" : "") + p`. */
  function Append(current: string, p: string): (r: string)
    ensures current == "" ==> r == p
    ensures current != "" ==> |r| == |current| + 2 + |p|
  {
    current + (if current != "" then "\n\n" else "") + p
  }

  /** One iteration: flush the buffer when it is non-empty and would grow past 600, then append. */
  function Step(a: Acc, p: string): Acc
  {
    var flushed := if |a.current| + |p| > ChunkSize && |a.current| > 0 then Acc(a.chunks + [Trim(a.current)], "") else a;
    Acc(flushed.chunks, Append(flushed.current, p))
  }

  /** The state after the first `k` paragraphs. */
  function Fold(ps: seq<string>, k: nat): Acc
    requires k <= |ps|
  {
    if k == 0 then Acc([], "") else Step(Fold(ps, k - 1), ps[k - 1])
  }

  /** After the loop the buffer is pushed, trimmed, unless it is blank. */
  function Finish(a: Acc): seq<string>
  {
    if !IsBlank(a.current) then a.chunks + [Trim(a.current)] else a.chunks
  }

  function ChunkParagraphs(ps: seq<string>): seq<string>
  {
    Finish(Fold(ps, |ps|))
  }

  /** `chunkText(text)`. */
  function Chunks(text: string): seq<string>
  {
    ChunkParagraphs(Paragraphs(text))
  }

  /** The body of `chunkText`'s loop for one paragraph. */
  method PushParagraph(chunks: seq<string>, current: string, p: string) returns (chunks': seq<string>, current': string)
    ensures Acc(chunks', current') == Step(Acc(chunks, current), p)
  {
    chunks', current' := chunks, current;
    if |current'| + |p| > ChunkSize && |current'| > 0 {
      chunks' := chunks' + [Trim(current')];
      current' := "";
    }
    current' := current' + (if current' != "" then "\n\n" else "") + p;
  }

  /** `chunkText`: split into paragraphs, run the loop, push the last buffer unless blank. */
  method ChunkText(text: string) returns (chunks: seq<string>)
    ensures chunks == Chunks(text)
  {
    var paragraphs := Paragraphs(text);
    var current;
    chunks, current := FoldParagraphs(paragraphs);
    if !IsBlank(current) {
      chunks := chunks + [Trim(current)];
    }
  }

  /** The loop of `chunkText` over the paragraphs of the text. */
  method FoldParagraphs(paragraphs: seq<string>) returns (chunks: seq<string>, current: string)
    ensures Acc(chunks, current) == Fold(paragraphs, |paragraphs|)
  {
    chunks := [];
    current := "";
    var i := 0;
    while i < |paragraphs|
      invariant 0 <= i <= |paragraphs|
      invariant Acc(chunks, current) == Fold(paragraphs, i)
    {
      chunks, current := PushParagraph(chunks, current, paragraphs[i]);
      i := i + 1;
    }
  }

  // ---- what the chunks are made of

  /** Paragraphs joined as the buffer joins them: a separator only after a non-empty buffer. */
  function Glue(g: seq<string>): string
  {
    if g == [] then "" else Append(Glue(g[..|g| - 1]), g[|g| - 1])
  }

  function Flatten(gs: seq<seq<string>>): seq<string>
  {
    if gs == [] then [] else Flatten(gs[..|gs| - 1]) + gs[|gs| - 1]
  }

  /** The paragraph groups behind the chunks pushed so far, and the group in the buffer. */
  function Groups(ps: seq<string>, k: nat): (r: (seq<seq<string>>, seq<string>))
    requires k <= |ps|
  {
    if k == 0 then ([], [])
    else
      var (gs, cur) := Groups(ps, k - 1);
      var p := ps[k - 1];
      if |Glue(cur)| + |p| > ChunkSize && |Glue(cur)| > 0 then (gs + [cur], [p]) else (gs, cur + [p])
  }

  function TrimGlued(gs: seq<seq<string>>): (r: seq<string>)
    ensures |r| == |gs|
    ensures forall i :: 0 <= i < |gs| ==> r[i] == Trim(Glue(gs[i]))
  {
    seq(|gs|, i requires 0 <= i < |gs| => Trim(Glue(gs[i])))
  }

  lemma GlueSnoc(g: seq<string>, p: string)
    ensures Glue(g + [p]) == Append(Glue(g), p)
  {
    assert (g + [p])[..|g|] == g;
  }

  lemma FlattenSnoc(gs: seq<seq<string>>, g: seq<string>)
    ensures Flatten(gs + [g]) == Flatten(gs) + g
  {
    assert (gs + [g])[..|gs|] == gs;
  }

  lemma TrimGluedSnoc(gs: seq<seq<string>>, g: seq<string>)
    ensures TrimGlued(gs + [g]) == TrimGlued(gs) + [Trim(Glue(g))]
  {
  }

  /**
   * The groups read so far make up the first `k` paragraphs in order, the
   * pushed chunks are the trimmed gluings of the closed groups and the
   * buffer is the gluing of the open one.
   */
  predicate GroupsAgree(ps: seq<string>, k: nat)
    requires k <= |ps|
  {
    && Flatten(Groups(ps, k).0) + Groups(ps, k).1 == ps[..k]
    && Fold(ps, k).chunks == TrimGlued(Groups(ps, k).0)
    && Fold(ps, k).current == Glue(Groups(ps, k).1)
  }

  /** The groups and the loop state agree after one more paragraph. */
  lemma GroupsStep(ps: seq<string>, k: nat)
    requires 0 < k <= |ps|
    requires GroupsAgree(ps, k - 1)
    ensures GroupsAgree(ps, k)
  {
    var gs, cur := Groups(ps, k - 1).0, Groups(ps, k - 1).1;
    var p := ps[k - 1];
    var a := Fold(ps, k - 1);
    if |Glue(cur)| + |p| > ChunkSize && |Glue(cur)| > 0 {
      assert Groups(ps, k) == (gs + [cur], [p]);
      assert Flatten(Groups(ps, k).0) + Groups(ps, k).1 == ps[..k] by {
        FlattenSnoc(gs, cur);
        PrefixSnoc(ps, k);
      }
      assert Fold(ps, k).chunks == TrimGlued(Groups(ps, k).0) && Fold(ps, k).current == Glue(Groups(ps, k).1) by {
        assert Fold(ps, k) == Step(a, p);
        StepFlush(a, p, gs, cur);
      }
    } else {
      assert Groups(ps, k) == (gs, cur + [p]);
      assert Flatten(Groups(ps, k).0) + Groups(ps, k).1 == ps[..k] by {
        PrefixSnoc(ps, k);
      }
      assert Fold(ps, k).chunks == TrimGlued(Groups(ps, k).0) && Fold(ps, k).current == Glue(Groups(ps, k).1) by {
        assert Fold(ps, k) == Step(a, p);
        StepKeep(a, p, gs, cur);
      }
    }
  }

  lemma PrefixSnoc(ps: seq<string>, k: nat)
    requires 0 < k <= |ps|
    ensures ps[..k] == ps[..k - 1] + [ps[k - 1]]
  {
  }

  lemma StepFlush(a: Acc, p: string, gs: seq<seq<string>>, cur: seq<string>)
    requires a.chunks == TrimGlued(gs) && a.current == Glue(cur)
    requires |a.current| + |p| > ChunkSize && |a.current| > 0
    ensures Step(a, p).chunks == TrimGlued(gs + [cur]) && Step(a, p).current == Glue([p])
  {
    GlueSnoc([], p);
    FlattenSnoc(gs, cur);
    TrimGluedSnoc(gs, cur);
  }

  lemma StepKeep(a: Acc, p: string, gs: seq<seq<string>>, cur: seq<string>)
    requires a.chunks == TrimGlued(gs) && a.current == Glue(cur)
    requires !(|a.current| + |p| > ChunkSize && |a.current| > 0)
    ensures Step(a, p).chunks == TrimGlued(gs) && Step(a, p).current == Glue(cur + [p])
  {
    GlueSnoc(cur, p);
  }

  /**
   * The pushed chunks are the trimmed gluings of consecutive groups of
   * paragraphs, the buffer is the gluing of the next group, and the groups
   * together are exactly the paragraphs read so far, in order.
   */
  lemma {:induction false} FoldGroups(ps: seq<string>, k: nat)
    requires k <= |ps|
    ensures GroupsAgree(ps, k)
  {
    if k > 0 {
      FoldGroups(ps, k - 1);
      GroupsStep(ps, k);
    }
  }

  /** The chunks of a paragraph list, read off its groups. */
  function GroupChunks(ps: seq<string>): seq<string>
  {
    var gs, cur := Groups(ps, |ps|).0, Groups(ps, |ps|).1;
    TrimGlued(if IsBlank(Glue(cur)) then gs else gs + [cur])
  }

  /**
   * Paragraph order: the chunks are the trimmed gluings of consecutive
   * paragraph groups that make up all the paragraphs in order, except that
   * a blank last group yields no chunk.
   */
  lemma ChunkOrder(ps: seq<string>)
    ensures Flatten(Groups(ps, |ps|).0) + Groups(ps, |ps|).1 == ps
    ensures ChunkParagraphs(ps) == GroupChunks(ps)
  {
    FoldGroups(ps, |ps|);
    assert ps[..|ps|] == ps;
    TrimGluedSnoc(Groups(ps, |ps|).0, Groups(ps, |ps|).1);
  }

  /** Every chunk is already trimmed. */
  lemma ChunksTrimmed(ps: seq<string>)
    ensures forall c :: c in ChunkParagraphs(ps) ==> Trim(c) == c
  {
    forall c | c in ChunkParagraphs(ps) ensures Trim(c) == c {
      ChunkOrder(ps);
      var gs, cur := Groups(ps, |ps|).0, Groups(ps, |ps|).1;
      var all := if IsBlank(Glue(cur)) then gs else gs + [cur];
      var i :| 0 <= i < |all| && TrimGlued(all)[i] == c;
      TrimEnds(Glue(all[i]));
      TrimOfTrimmed(c);
    }
  }

  /** A chunk is at most 602 characters long, or is one trimmed paragraph. */
  predicate SizeOk(c: string, ps: seq<string>)
  {
    |c| <= ChunkSize + 2 || exists p :: p in ps && c == Trim(p)
  }

  /** The buffer is either one paragraph or at most 602 characters long, and every pushed chunk is short or one trimmed paragraph. */
  predicate SizesBounded(ps: seq<string>, k: nat)
    requires k <= |ps|
  {
    && (|Fold(ps, k).current| <= ChunkSize + 2 || Fold(ps, k).current in ps)
    && forall c :: c in Fold(ps, k).chunks ==> SizeOk(c, ps)
  }

  lemma SizesStep(ps: seq<string>, k: nat)
    requires 0 < k <= |ps| && SizesBounded(ps, k - 1)
    ensures SizesBounded(ps, k)
  {
    var a := Fold(ps, k - 1);
    var p := ps[k - 1];
    assert p in ps;
    if |a.current| + |p| > ChunkSize && |a.current| > 0 {
      assert Fold(ps, k) == Acc(a.chunks + [Trim(a.current)], p);
      assert SizeOk(Trim(a.current), ps);
    } else {
      assert Fold(ps, k) == Acc(a.chunks, Append(a.current, p));
    }
  }

  lemma {:induction false} FoldSizes(ps: seq<string>, k: nat)
    requires k <= |ps|
    ensures SizesBounded(ps, k)
  {
    if k > 0 {
      FoldSizes(ps, k - 1);
      SizesStep(ps, k);
    }
  }

  /** A chunk longer than 602 characters is a single (trimmed) paragraph. */
  lemma ChunkSizes(ps: seq<string>)
    ensures forall c :: c in ChunkParagraphs(ps) ==> SizeOk(c, ps)
  {
    FoldSizes(ps, |ps|);
    var a := Fold(ps, |ps|);
    if !IsBlank(a.current) {
      assert SizeOk(Trim(a.current), ps);
    }
  }

  /**
   * Only the last buffer is checked for blankness: a blank first paragraph
   * followed by one that overflows the limit is pushed as an empty chunk.
   */
  lemma BlankChunkPossible(p0: string, p1: string)
    requires p0 != "" && IsBlank(p0) && |p0| + |p1| > ChunkSize
    ensures |ChunkParagraphs([p0, p1])| >= 1 && ChunkParagraphs([p0, p1])[0] == ""
  {
    assert Fold([p0, p1], 1) == Acc([], p0);
  }

  /** A short text without blank lines is one chunk, its trimmed self, unless it is blank. */
  lemma ShortTextOneChunk(text: string)
    requires NoBlankLine(text) && !IsBlank(text)
    ensures Chunks(text) == [Trim(text)]
  {
    assert Fold([text], 1) == Acc([], text);
  }

  // ---------------------------------------------------------------------------
  // Ranking
  // ---------------------------------------------------------------------------

  /** `query.toLowerCase().split(/\s+/).filter(t => t.length > 2)`. */
  function Terms(query: string): (ts: seq<string>)
    ensures forall t :: t in ts ==> |t| > 2 && NoSpace(t)
  {
    var ws := Words(Lower(query));
    FilterMembers(ws, t => |t| > 2);
    Filter(ws, t => |t| > 2)
  }

  /** The number of the first `k` terms, with repetition, that occur in `lower`. */
  function CountFound(lower: string, terms: seq<string>, k: nat): (n: nat)
    requires k <= |terms|
    ensures n <= k
  {
    if k == 0 then 0 else CountFound(lower, terms, k - 1) + (if Contains(lower, terms[k - 1]) then 1 else 0)
  }

  function Score(chunk: string, terms: seq<string>): nat
  {
    CountFound(Lower(chunk), terms, |terms|)
  }

  /** A chunk scores above zero exactly when it contains one of the terms. */
  lemma {:induction false} CountFoundPositive(lower: string, terms: seq<string>, k: nat)
    requires k <= |terms|
    ensures CountFound(lower, terms, k) > 0 <==> exists i :: 0 <= i < k && Contains(lower, terms[i])
  {
    if k > 0 {
      CountFoundPositive(lower, terms, k - 1);
    }
  }

  /** The counting loop for one chunk. */
  method ScoreChunk(chunk: string, terms: seq<string>) returns (score: nat)
    ensures score == Score(chunk, terms)
  {
    var lower := Lower(chunk);
    score := 0;
    var i := 0;
    while i < |terms|
      invariant 0 <= i <= |terms|
      invariant score == CountFound(lower, terms, i)
    {
      if Contains(lower, terms[i]) {
        score := score + 1;
      }
      i := i + 1;
    }
  }

  datatype Scored = Scored(chunk: string, score: nat)

  function NegScore(s: Scored): real
  {
    -(s.score as real)
  }

  predicate Positive(s: Scored)
  {
    s.score > 0
  }

  /** `scored.filter(score > 0).sort(by score, descending).slice(0, max)`. */
  function Top(scored: seq<Scored>, max: nat): seq<Scored>
  {
    Take(SortBy(Filter(scored, Positive), NegScore), max)
  }

  function ChunksOf(t: seq<Scored>): (r: seq<string>)
    ensures |r| == |t|
    ensures forall i :: 0 <= i < |t| ==> r[i] == t[i].chunk
  {
    seq(|t|, i requires 0 <= i < |t| => t[i].chunk)
  }

  function ScoreAll(chunks: seq<string>, terms: seq<string>): (r: seq<Scored>)
    ensures |r| == |chunks|
    ensures forall i :: 0 <= i < |chunks| ==> r[i] == Scored(chunks[i], Score(chunks[i], terms))
  {
    seq(|chunks|, i requires 0 <= i < |chunks| => Scored(chunks[i], Score(chunks[i], terms)))
  }

  /**
   * The selection: at most `max` entries, all with a positive score and
   * from the input, in non-increasing score order.
   */
  lemma TopSpec(scored: seq<Scored>, max: nat)
    ensures |Top(scored, max)| <= max
    ensures forall x :: x in Top(scored, max) ==> x in scored && x.score > 0
    ensures forall i, j :: 0 <= i < j < |Top(scored, max)| ==> Top(scored, max)[i].score >= Top(scored, max)[j].score
  {
    var f := Filter(scored, Positive);
    var sorted := SortBy(f, NegScore);
    var t := Top(scored, max);
    assert t == sorted[..|t|];
    forall x | x in t ensures x in scored && x.score > 0 {
      assert x in multiset(sorted);
      assert x in f by {
        assert x in multiset(f);
      }
      FilterMembers(scored, Positive);
    }
    forall i, j | 0 <= i < j < |t| ensures t[i].score >= t[j].score {
      assert NegScore(sorted[i]) <= NegScore(sorted[j]);
    }
  }


  /**
   * It is the top of the list: an entry with a positive score that was not
   * selected ranks no higher than any selected one, and the selection is full.
   */
  lemma TopIsTop(scored: seq<Scored>, max: nat, x: Scored)
    requires x in scored && x.score > 0 && x !in Top(scored, max)
    ensures |Top(scored, max)| == max
    ensures forall y :: y in Top(scored, max) ==> y.score >= x.score
  {
    var sorted := SortBy(Filter(scored, Positive), NegScore);
    FilterMembers(scored, Positive);
    assert x in multiset(Filter(scored, Positive));
    assert x in multiset(sorted);
    var j :| 0 <= j < |sorted| && sorted[j] == x;
    var t := Top(scored, max);
    assert t == sorted[..|t|];
    assert j >= |t|;
    forall y | y in t ensures y.score >= x.score {
      var i :| 0 <= i < |t| && t[i] == y;
      assert NegScore(sorted[i]) <= NegScore(sorted[j]);
    }
  }

  lemma {:induction false} WithKeyPrefix<T>(s: seq<T>, key: T -> real, k: real, n: nat)
    requires n <= |s|
    ensures WithKey(s[..n], key, k) <= WithKey(s, key, k)
  {
    if n > 0 {
      WithKeyPrefix(s[1..], key, k, n - 1);
      assert s[..n][1..] == s[1..][..n - 1];
    }
  }

  /** Ties keep document order: the selected entries of one score are a prefix of that score's entries in the input. */
  lemma TopStable(scored: seq<Scored>, max: nat, k: real)
    ensures WithKey(Top(scored, max), NegScore, k) <= WithKey(Filter(scored, Positive), NegScore, k)
  {
    var sorted := SortBy(Filter(scored, Positive), NegScore);
    SortByStable(Filter(scored, Positive), NegScore, k);
    WithKeyPrefix(sorted, NegScore, k, |Top(scored, max)|);
  }

  /** `searchSource(query)`, with the file's content as a parameter. */
  function SearchSpec(source: Option<string>, query: string): seq<string>
  {
    if source.None? then []
    else
      var terms := Terms(query);
      if |terms| == 0 then []
      else ChunksOf(Top(ScoreAll(Chunks(source.value), terms), LibMaxChunks))
  }

  /** The scoring loop over all chunks. */
  method ScoreChunks(chunks: seq<string>, terms: seq<string>) returns (scored: seq<Scored>)
    ensures scored == ScoreAll(chunks, terms)
  {
    scored := [];
    var i := 0;
    while i < |chunks|
      invariant 0 <= i <= |chunks|
      invariant scored == ScoreAll(chunks[..i], terms)
    {
      var score := ScoreChunk(chunks[i], terms);
      scored := scored + [Scored(chunks[i], score)];
      i := i + 1;
    }
    assert chunks[..i] == chunks;
  }

  method SearchSource(source: Option<string>, query: string) returns (r: seq<string>)
    ensures r == SearchSpec(source, query)
  {
    if source.None? {
      return [];
    }
    var chunks := ChunkText(source.value);
    var terms := Terms(query);
    if |terms| == 0 {
      return [];
    }
    var scored := ScoreChunks(chunks, terms);
    r := ChunksOf(Top(scored, LibMaxChunks));
  }

  /** A selected chunk is one of the chunks and contains one of the terms. */
  lemma SelectedHasTerm(chunks: seq<string>, terms: seq<string>, max: nat, c: string)
    requires c in ChunksOf(Top(ScoreAll(chunks, terms), max))
    ensures c in chunks && exists u :: u in terms && Contains(Lower(c), u)
  {
    var scored := ScoreAll(chunks, terms);
    var t := Top(scored, max);
    TopSpec(scored, max);
    var i :| 0 <= i < |t| && t[i].chunk == c;
    assert t[i] in t;
    var j :| 0 <= j < |scored| && scored[j] == t[i];
    assert chunks[j] == c;
    CountFoundPositive(Lower(c), terms, |terms|);
    var k :| 0 <= k < |terms| && Contains(Lower(c), terms[k]);
    assert terms[k] in terms;
  }

  /** What the library search returns: at most 3 chunks of the text, each containing a query term. */
  lemma SearchSpecBounds(source: Option<string>, query: string)
    ensures |SearchSpec(source, query)| <= LibMaxChunks
    ensures source.None? || |Terms(query)| == 0 ==> SearchSpec(source, query) == []
    ensures forall c :: c in SearchSpec(source, query) ==>
      source.Some? && c in Chunks(source.value) && exists t :: t in Terms(query) && Contains(Lower(c), t)
  {
    if source.Some? && |Terms(query)| > 0 {
      var terms := Terms(query);
      var scored := ScoreAll(Chunks(source.value), terms);
      TopSpec(scored, LibMaxChunks);
      forall c | c in SearchSpec(source, query)
        ensures c in Chunks(source.value) && exists u :: u in terms && Contains(Lower(c), u)
      {
        SelectedHasTerm(Chunks(source.value), terms, LibMaxChunks, c);
      }
    }
  }

  // ---------------------------------------------------------------------------
  // The HTTP route
  // ---------------------------------------------------------------------------

  /** The `query` field of the request body. */
  datatype QueryField = Missing | NotString | Str(value: string)

  /** The request body: JSON that fails to parse, or a parsed object. */
  datatype Request = Unparseable | Parsed(query: QueryField)

  datatype Response = BadRequest | ChunkList(chunks: seq<string>)

  /** The route's ranking of a readable source for a non-empty query. */
  function RouteChunks(query: string, source: string): seq<string>
  {
    ChunksOf(Top(ScoreAll(Chunks(source), Terms(query)), RouteMaxChunks))
  }

  /** `POST /api/rag`. */
  function RoutePost(req: Request, source: Option<string>): (r: Response)
  {
    if req.Unparseable? then ChunkList([])
    else if !req.query.Str? || req.query.value == "" then BadRequest
    else if source.None? then ChunkList([])
    else ChunkList(RouteChunks(req.query.value, source.value))
  }

  /**
   * A missing, non-string or empty query is a 400; a body that does not
   * parse or a source that cannot be read gives no chunks; otherwise at
   * most 5 chunks come back.
   */
  lemma RouteSpec(req: Request, source: Option<string>)
    ensures req.Parsed? && (!req.query.Str? || req.query.value == "") <==> RoutePost(req, source) == BadRequest
    ensures req.Unparseable? || (RoutePost(req, source).ChunkList? && source.None?) ==> RoutePost(req, source) == ChunkList([])
    ensures RoutePost(req, source).ChunkList? ==> |RoutePost(req, source).chunks| <= RouteMaxChunks
  {
    if req.Parsed? && req.query.Str? && req.query.value != "" && source.Some? {
      TopSpec(ScoreAll(Chunks(source.value), Terms(req.query.value)), RouteMaxChunks);
    }
  }

  lemma TakeChunks(sorted: seq<Scored>)
    ensures Take(ChunksOf(Take(sorted, RouteMaxChunks)), LibMaxChunks) == ChunksOf(Take(sorted, LibMaxChunks))
  {
  }

  /**
   * The route skips the early return on an empty term list, but then no
   * chunk scores above zero, so it answers the same; and the library's
   * three chunks are the first three of the route's five.
   */
  lemma RouteAgreesWithLibrary(query: string, source: string)
    ensures Take(RouteChunks(query, source), LibMaxChunks) == SearchSpec(Some(source), query)
  {
    var terms := Terms(query);
    var scored := ScoreAll(Chunks(source), terms);
    if |terms| == 0 {
      NoPositive(scored);
    } else {
      TakeChunks(SortBy(Filter(scored, Positive), NegScore));
    }
  }

  lemma {:induction false} NoPositive(scored: seq<Scored>)
    requires forall i :: 0 <= i < |scored| ==> scored[i].score == 0
    ensures Filter(scored, Positive) == []
  {
    if scored != [] {
      NoPositive(scored[..|scored| - 1]);
    }
  }
}
