# sanskrithelp — a verified Dafny model of its core

sanskrithelp is a Sanskrit-learning application. A Python back end grades pronunciation, runs grammar
games and a tutor, and builds a retrieval corpus. A TypeScript front end provides sandhi and derivation
helpers, handwriting and speech recognition glue, WAV encoding, a paragraph retriever, FSRS flash-card
drills and progress stores kept in the browser's localStorage. This project models the logic of those
parts and proves what each of them promises. There is one Dafny module per source file, and each
module's doc comments cite the lines it follows.

Python back end:
- `PhonemeDiff` (phoneme_diff.dfy) models IAST normalisation, the character pairing of a diff over an
  abstract opcode list, and the similarity ratio.
- `SabdakridaData` (data.dfy) models the directional confusion table and its explanations.
- `Mode1` (mode1.dfy) models the vowel-duration gate and the score, error types and feedback of a
  pronunciation session.
- `WeaknessProfile` (weakness_profile.dfy) models the per-(user, error type) counters and the drill
  priority.
- `GameProfile` (game_profile.dfy) models the game profile: EMA centroids, topic mastery, bounded FIFO
  windows, the chapter gate and the row round trip.
- `GameEngine` (engine_core.dfy) models the challenge defaults and the profile update of the core engine.
- `DhatuDash` (dhatu_dash.dfy) models the Dhātu Dash session, whose tree of forms grows by one per
  correct answer.
- `GamesRouter` (games_router.dfy) models the challenge-meta serialisation and restore, and the session
  restore of the evaluate route.
- `TutorProfiles` (tutor_profile.dfy) models monotone zone levels and per-(zone, level) retry counters.
- `TutorConductor` (conductor.dfy) models the three-strikes remedial gate and the dispatch to the
  assessors.
- `TutorNavigator` (navigator.dfy) models the prerequisite filter, the seven-slot weekly arc and the
  daily brief.
- `TutorGrammar`, `TutorConceptual` and `TutorPronunciation` model the three assessors.
- `RagBuild` (rag_build.dfy) models topic inference, tag stripping and the corpus chunk builders.

TypeScript front end:
- `Sandhi` models the sandhi rewrites.
- `RootForms` models root-form membership.
- `Derivation` models the derivation tree and its pre-order traversal.
- `DrawRecognize` models binarisation, the bounding-box fit and the 3-4 chamfer distance transform.
- `Recognize` models greedy CTC decoding and 2×2 downsampling.
- `DrawConfusables` models the symmetric confusable-pair relation.
- `Wav` models the 44-byte RIFF/WAVE PCM header and the sample encoder.
- `VoiceRecording` models the recorder's option defaults and its stop guard.
- `Rag` models the paragraph chunker and the keyword rankers.
- `Fsrs` models the FSRS card-status classification, due cards and mastery.
- `DrillUtils` and `DrillPage` model distractor options, the shuffle, need scores and the weighted deck.
- `ProgressStorage`, `LessonProgress`, `ZoneProgress`, `TutorPreferences`, `TutorStorage` and
  `ReferenceDrawings` model the browser stores. Each is a class whose fields stand for the localStorage
  keys it uses.

Shared helper modules:
- `Wrappers` holds the Option type.
- `Text` holds character classes, lower-casing, trimming, splitting, joining and decimal rendering.
- `JsonValues` holds the JSON values that the router and the stores parse.
- `Sorting` holds a stable insertion sort by key.
- `Tables` holds association lists.

Modelling conventions:
- Floats become `real`.
- Python's `round` is modelled as round-half-even on exact values.
- Clocks, uuids and random draws become parameters or nondeterministic choices.
- Model calls, embedding services, ASR and TTS become parameters.
- `difflib.SequenceMatcher` becomes a well-formed opcode list, as a parameter.

## Model

| member | source | states |
|---|---|---|
| TutorConductor.GenericPrompt | tutor/conductor.py:81 | the generic prompt is the fixed prefix followed by the objectives joined by "; " |
| TutorConductor.FixedPromptIgnoresObjectives | tutor/conductor.py:66-80 | the seven fixed first questions do not depend on the objectives |
| TutorConductor.GenericPromptListsObjectives | tutor/conductor.py:66-81 | every other level's first prompt is the generic prefix followed by its objectives |
| TutorConductor.StartSession | tutor/conductor.py:29-63 | starting reads the learner's stored profile and gives the start outcome for it, changing nothing |
| TutorConductor.StartOutcome | tutor/conductor.py:29-63 | a start is an error exactly when the spec is missing, is remedial exactly when the level has three or more retries, and otherwise opens the level with its objectives and the defaults "conceptual" and 15 minutes |
| TutorConductor.RouteOf | tutor/conductor.py:100-114 | a level is judged by pronunciation exactly when it is a production level with a pronunciation criterion, and conceptually exactly when it is not a production level |
| TutorConductor.Unpack3 | tutor/conductor.py:103-114 | unpacking three names fails exactly when the assessor returned a pair |
| TutorConductor.GrammarPathRaises | tutor/conductor.py:111-112 | as written, every submission to a production level without a pronunciation criterion fails before the profile is touched |
| TutorConductor.DispatchCompletesGrammar | tutor/conductor.py:100-114 | with the missing meta supplied, the grammar route gives the grammar assessor's verdict and feedback, and every other route is unchanged |
| TutorConductor.GrammarRouteEdges | tutor/conductor.py:112 | corrected: on the grammar route a level without production criteria passes, and an empty answer to one with criteria fails |
| TutorConductor.Assess | tutor/conductor.py:100-114 | as written: the routed assessor's verdict, and no verdict (the ValueError of the three-name unpacking) exactly on the grammar route |
| TutorConductor.GetOr | tutor/conductor.py:122 | a zone with a stored level reads as that level, otherwise as the given default |
| TutorConductor.SubmitSession | tutor/conductor.py:84-138 | the result and the saved row are those of the as-written submission outcome: the learner's row is replaced when something is saved, no other row changes, and on the grammar route it raises with the store unchanged |
| TutorConductor.SubmitRoutes | tutor/conductor.py:100-138 | as written, a submission raises and saves nothing exactly on the grammar route, and on every other route agrees with the corrected submission, which always saves |
| TutorConductor.PassOutcome | tutor/conductor.py:116-123 | once a verdict passes, the zone is raised, the level's retries are cleared, that profile is saved, and the zone's new level is reported |
| TutorConductor.FailOutcome | tutor/conductor.py:125-138 | once a verdict fails, one more retry is counted, the zone levels are kept, the feedback is the verdict's, 3 minus the new count is reported as remaining, and remedial material is attached exactly from the third retry on |
| TutorConductor.MissingSpec | tutor/conductor.py:96-98 | a missing spec is an error naming the zone and level, and nothing is saved, as written and corrected |
| TutorConductor.ThreeFailsThenRemedial | tutor/conductor.py:38-46 | three failures at a fresh level make the next start remedial, and two do not |
| TutorConductor.PassResetsRetries | tutor/conductor.py:38-63 | after a pass the level starts normally again |
| TutorConductor.FailIsPerLevel | tutor/conductor.py:38-46 | a failure at one level never changes whether another level starts remedially |
| TutorProfiles.LevelKey | tutor/profile.py:49-50 | the key is the zone name, then "_", then a tail with no "_" in it |
| TutorProfiles.LevelKeyInjective | tutor/profile.py:49-50 | two (zone, level) pairs share a counter key only when they are the same pair, whatever the zone name holds |
| TutorProfiles.CountOr0 | tutor/profile.py:53 | a missing counter reads as 0, a present one as its value |
| TutorProfiles.Incremented | tutor/profile.py:55-59 | the counter at the key becomes one more than before (0 when missing) and every other counter is kept |
| TutorProfiles.Raised | tutor/profile.py:64-67 | the zone's level becomes the larger of the old level (0 when missing) and the passed one; other zones are kept |
| TutorProfiles.RaisedMonotone | tutor/profile.py:64-67 | passing a level never lowers any zone's level |
| TutorProfiles.ClearIdempotent | tutor/profile.py:61-62 | clearing a counter twice is clearing it once, and a cleared counter is gone |
| TutorProfiles.IncrementOtherLevel | tutor/profile.py:55-59 | a retry at one (zone, level) leaves every other (zone, level) counter as it was |
| TutorProfiles.ClearOtherLevel | tutor/profile.py:61-62 | clearing one (zone, level) leaves every other (zone, level) counter as it was |
| TutorProfiles.NewTutorData | tutor/profile.py:40-47 | a learner without a row has no zone levels, no counters, no weekly arc and no unverified phonemes |
| TutorProfiles.TutorProfile.constructor | tutor/profile.py:40-47 | the profile holds exactly the data it is built with |
| TutorProfiles.TutorProfile.RetriesFor | tutor/profile.py:52-53 | a level never failed has 0 retries |
| TutorProfiles.TutorProfile.IncrementRetry | tutor/profile.py:55-59 | the returned count is one more than before and is what the counter now holds; nothing else changes |
| TutorProfiles.TutorProfile.ClearRetry | tutor/profile.py:61-62 | the level's counter is removed, so it reads 0; nothing else changes |
| TutorProfiles.TutorProfile.PassLevel | tutor/profile.py:64-68 | the zone is raised to the level when that is higher and the level's counter is cleared; nothing else changes |
| TutorProfiles.TutorStore.constructor | tutor/profile.py:26-37 | a new store has no rows |
| TutorProfiles.TutorStore.Stored | tutor/profile.py:71-80 | a learner without a row gets a fresh profile; a stored row belongs to its learner |
| TutorProfiles.TutorStore.Load | tutor/profile.py:71-108 | loading gives a new profile object holding the stored row, or a fresh one |
| TutorProfiles.TutorStore.Save | tutor/profile.py:111-138 | saving inserts or replaces exactly the learner's row |
| TutorNavigator.Trunc | tutor/navigator.py:30 | `int()` of a float rounds toward zero: down for non-negative values, up for negative ones |
| TutorNavigator.PrerequisitesMet | tutor/navigator.py:23-33 | the loop answers true exactly when every prerequisite zone has reached its required level |
| TutorNavigator.NoPrereqsAlwaysMet | tutor/navigator.py:24-33 | a zone with no prerequisites, or missing from the catalogue, is always open |
| TutorNavigator.PhilosophyDefaultBar | tutor/navigator.py:27-30 | without a configured threshold, philosophy needs zone_11 at level 7 |
| TutorNavigator.PrereqsMonotone | tutor/navigator.py:23-33 | raising levels never closes an open zone |
| TutorNavigator.PassKeepsZonesOpen | tutor/navigator.py:23-33 | passing a level never closes a zone that was open |
| TutorNavigator.DrillsFor | tutor/navigator.py:91-100 | the drills always end with pronunciation, and a zone gets a game first exactly when it is one of the five mapped zones |
| TutorNavigator.GoalsAreEligible | tutor/navigator.py:44-56 | there is one goal per eligible zone, in the same order |
| TutorNavigator.SlotsOf | tutor/navigator.py:59-78 | a plan always has seven daily slots |
| TutorNavigator.GoalOfSpec | tutor/navigator.py:48-56 | an eligible zone's goal names the zone, starts at its current level, aims at min(current + 2, level count) (so one or two levels higher), and its focus is the zone's label or, without one, its id |
| TutorNavigator.EligibleOfSpec | tutor/navigator.py:42-50 | the zones the plan takes up are exactly the open, unfinished zones of the catalogue, in ascending order |
| TutorNavigator.GoalsSpec | tutor/navigator.py:42-56 | the plan has one goal per open, unfinished zone, in order, each from the current level to min(current + 2, level count), with the zone's label or id as focus |
| TutorNavigator.SlotsSpec | tutor/navigator.py:59-78 | the seven days are numbered 0 to 6; with goals, day d attempts the next level of goal d mod the number of goals, with that zone's drills; without goals every day is maintenance with the Dhātu Dash and pronunciation |
| TutorNavigator.CollectGoals | tutor/navigator.py:44-56 | the zone loop produces exactly the plan's goals |
| TutorNavigator.BuildSlots | tutor/navigator.py:59-78 | the day loop produces exactly the plan's seven slots |
| TutorNavigator.GenerateWeeklyArc | tutor/navigator.py:36-88 | the plan is built from the profile's levels, stored in the profile with its time, and the profile's row is saved; nothing else changes |
| TutorNavigator.WeekOld | tutor/navigator.py:122 | a plan is a week old exactly when at least 604800 seconds have passed |
| TutorNavigator.UnparsedStampIsStale | tutor/navigator.py:116-119 | a stored time that does not parse counts as eight days old |
| TutorNavigator.TodaySlot | tutor/navigator.py:126-128 | there is no slot for today exactly when the plan has no slots; otherwise it is one of them |
| TutorNavigator.DailyBrief | tutor/navigator.py:103-134 | the brief and the saved row are those of the brief outcome for the learner's stored profile; only that learner's row may change |
| TutorNavigator.BriefSpec | tutor/navigator.py:110-134 | a missing or week-old plan is rebuilt, saved with the current time and gives today's slot of the new plan; a current plan is used as stored and nothing is saved |
| TutorNavigator.MaintenanceBrief | tutor/navigator.py:137-146 | a day without goals reads as maintenance with "dhatu_dash, pronunciation" |
| TutorNavigator.LevelBrief | tutor/navigator.py:137-145 | a goal's day names the zone's label (or its id) and the level to attempt, unless that level is 0 |
| TutorGrammar.Simplify | tutor/assessment/grammar.py:48 | the simplified spelling has the same length, with each of ū, ṛ, ṃ, ā, ī, ṭ replaced by its plain letter and every other character kept |
| TutorGrammar.CollectForms | tutor/assessment/grammar.py:37-45 | the loops collect exactly the root's form set |
| TutorGrammar.AddDerived | tutor/assessment/grammar.py:38-41 | the loop over the derived forms adds exactly their non-empty normalised forms |
| TutorGrammar.AddNames | tutor/assessment/grammar.py:42-45 | the loop over the derived names adds exactly their non-empty normalised names |
| TutorGrammar.Assign | tutor/assessment/grammar.py:46-56 | every key of the set maps to the value; every other key is kept |
| TutorGrammar.EnterRoot | tutor/assessment/grammar.py:46-56 | one root is entered under its spelling, its simplified spelling and its alias |
| TutorGrammar.EnterSpellings | tutor/assessment/grammar.py:46-50 | the form set is stored under the spelling and under its simplified spelling, and nothing else changes |
| TutorGrammar.EnterAlias | tutor/assessment/grammar.py:51-56 | kṛ, bhū and gam are also stored under kri, bhu and ga; no other root adds a key |
| TutorGrammar.AssignMore | tutor/assessment/grammar.py:46-56 | assigning two key sets in turn is assigning their union |
| TutorGrammar.BuildRootForms | tutor/assessment/grammar.py:28-57 | the loop over the roots builds exactly the root-form table |
| TutorGrammar.RootFormsHasEveryRoot | tutor/assessment/grammar.py:33-46 | every root with a non-empty spelling is in the table under its normalised spelling |
| TutorGrammar.RootFormsFromRoots | tutor/assessment/grammar.py:33-56 | every entry of the table is the form set of some listed root |
| TutorGrammar.LastRootWins | tutor/assessment/grammar.py:46-56 | the root entered last decides the forms under all of its keys |
| TutorGrammar.FormsOfSpec | tutor/assessment/grammar.py:37-45 | a root's form set holds its spelling, every non-empty derived form and every non-empty name, and holds "" only when the spelling is empty |
| TutorGrammar.BlankOut | tutor/assessment/grammar.py:105 | replacing a character by a space keeps the length and changes exactly that character's occurrences |
| TutorGrammar.CountValid | tutor/assessment/grammar.py:106 | the number of known tokens is at most the number of tokens |
| TutorGrammar.CountValidAppend | tutor/assessment/grammar.py:106 | the count over two token lists is the sum of their counts |
| TutorGrammar.RepeatsCountTwice | tutor/assessment/grammar.py:106 | repeating an answer doubles its count of known forms |
| TutorGrammar.RootHint | tutor/assessment/grammar.py:98-102 | the `root_kri` criterion gives "kri", otherwise `root_bhu` gives "bhu", and the hint is never empty |
| TutorGrammar.ValidFor | tutor/assessment/grammar.py:103 | a hint with a non-empty form set uses that set |
| TutorGrammar.AssessEdges | tutor/assessment/grammar.py:74-80 | no production criteria always pass with no feedback; an empty answer to any criterion fails with "No answer provided." |
| TutorGrammar.GacchatiRootRule | tutor/assessment/grammar.py:85-89 | with the gacchati-root criterion, an answer passes exactly when it is gam, ga or gama |
| TutorGrammar.ProduceRule | tutor/assessment/grammar.py:96-109 | the produce-N rule passes exactly when at least N tokens (5 or 3) are known forms of the hinted root |
| TutorGrammar.UnknownCriteriaFail | tutor/assessment/grammar.py:111 | a non-empty answer to criteria no rule recognises fails |
| TutorConceptual.CountMet | tutor/assessment/conceptual.py:98-103 | at most every criterion is met |
| TutorConceptual.RatioBounds | tutor/assessment/conceptual.py:105 | a share of met criteria lies in [0, 1] and is 1 exactly when all are met |
| TutorConceptual.HeuristicCheck | tutor/assessment/conceptual.py:93-110 | the criterion loop gives exactly the heuristic outcome |
| TutorConceptual.HeuristicRatio | tutor/assessment/conceptual.py:104-107 | the heuristic reports all criteria as the total, a ratio in [0, 1], and ratio 1 exactly when all are met |
| TutorConceptual.ContainsExtended | tutor/assessment/conceptual.py:102 | a word found in an answer is found in any extension of it |
| TutorConceptual.CountMetExtended | tutor/assessment/conceptual.py:97-103 | saying more never lowers the number of met criteria |
| TutorConceptual.ShortWordsNeverMet | tutor/assessment/conceptual.py:101-102 | a criterion with no word longer than three characters is never met |
| TutorConceptual.Pieces | tutor/assessment/conceptual.py:72 | the reply splits into at least one piece, none holding a line break |
| TutorConceptual.NonEmpty | tutor/assessment/conceptual.py:72 | the kept lines are non-empty and start with no white space |
| TutorConceptual.CountYes | tutor/assessment/conceptual.py:73 | at most every line says Y |
| TutorConceptual.Missed | tutor/assessment/conceptual.py:86 | the listed criteria are no more than the criteria or the lines |
| TutorConceptual.Total | tutor/assessment/conceptual.py:74 | with criteria the total is never 0 |
| TutorConceptual.Hits | tutor/assessment/conceptual.py:73-74 | counting only the paired lines never exceeds the total |
| TutorConceptual.ReplyLinesOfExample | tutor/assessment/conceptual.py:72 | the reply "N\nN\nY\nY" reads as four lines |
| TutorConceptual.StrayLinesPassAsWritten | tutor/assessment/conceptual.py:72-80 | as written, two criteria both answered N followed by two stray Y lines pass |
| TutorConceptual.PiecesCons | tutor/assessment/conceptual.py:72 | a line, a break and the rest split into the line followed by the rest's pieces |
| TutorConceptual.PiecesSingle | tutor/assessment/conceptual.py:72 | a line without breaks is one piece |
| TutorConceptual.PiecesOfReply | tutor/assessment/conceptual.py:72 | the reply "N\nN\nY\nY" splits into its four lines |
| TutorConceptual.StrayLinesFail | tutor/assessment/conceptual.py:73-80 | corrected: counting only the paired lines fails the same reply |
| TutorConceptual.AssessConceptual | tutor/assessment/conceptual.py:13-90 | the outcome is the conceptual verdict as written: no rubric passes, a reply is rated by all of its Y lines, no key or a failed call uses the heuristic loop |
| TutorConceptual.ConceptualRatio | tutor/assessment/conceptual.py:23-110 | no rubric is exactly the empty-meta pass; every rated outcome has a ratio of at least 0 and passes exactly when the ratio reaches the threshold; the ratio is at most 1 and met ≤ total when the reply has no more lines than criteria; without a reply the heuristic rates it |
| TutorConceptual.ConceptualCorrectedRatio | tutor/assessment/conceptual.py:23-110 | corrected: counting only paired lines, every rated outcome has a ratio in [0, 1] and met ≤ total, and passes exactly when the ratio reaches the threshold |
| TutorConceptual.MissedComplement | tutor/assessment/conceptual.py:73-86 | among the paired lines each criterion is either counted or listed in the feedback |
| TutorConceptual.HitsAgree | tutor/assessment/conceptual.py:73 | when the reply has no more lines than criteria, the two ways of counting agree |
| TutorPronunciation.PassRule | tutor/assessment/pronunciation.py:25-62 | only a completed check of a recording can pass, and it passes exactly when the score reaches the threshold or the session judged it correct; the unverified flag is set exactly when there is no recording |
| TutorPronunciation.StrictIsStricter | tutor/assessment/pronunciation.py:47-48 | whatever passes in strict mode passes in lenient mode |
| TutorPronunciation.CorrectAlwaysPasses | tutor/assessment/pronunciation.py:48 | a recording the session judged correct passes in either mode, whatever its score |
| PhonemeDiff.NormalizeIastShape | sabdakrida/asr/phoneme_diff.py:10-20 | normalisation maps "" to "", leaves none of `.,;:!?-–—`, and leaves the plain space as the only whitespace character |
| PhonemeDiff.CollapseSpacesShape | sabdakrida/asr/phoneme_diff.py:15 | after `re.sub(r"\s+", " ", …)` every whitespace character is a plain space and no two are adjacent; a non-empty input stays non-empty and starts with whitespace exactly when the input did |
| PhonemeDiff.RemovePunctuationShape | sabdakrida/asr/phoneme_diff.py:19 | deleting the punctuation class leaves no punctuation and keeps the plain-space property |
| PhonemeDiff.CleanWordIsNormal | sabdakrida/asr/phoneme_diff.py:10-20 | a word without whitespace or punctuation normalises to itself |
| PhonemeDiff.NormalizedCanStartWithSpace | sabdakrida/asr/phoneme_diff.py:15-19 | `"- a"` normalises to `" a"`: the dash is removed after stripping, so the output can start with a space |
| PhonemeDiff.DashBetweenWords | sabdakrida/asr/phoneme_diff.py:15-19 | `"a - b"` normalises to `"a  b"`, with two spaces |
| PhonemeDiff.NormalizeNotIdempotent | sabdakrida/asr/phoneme_diff.py:10-20 | normalising `"a - b"` twice differs from normalising it once |
| PhonemeDiff.IdentityOpcodesMatch | sabdakrida/asr/phoneme_diff.py:31 | one `equal` block over the whole text is a valid matcher alignment of a text with itself |
| PhonemeDiff.PairUp | sabdakrida/asr/phoneme_diff.py:37-42 | a replace block yields exactly max(m, k) entries for slices of lengths m and k |
| PhonemeDiff.PairUpAt | sabdakrida/asr/phoneme_diff.py:37-42 | entry k pairs the k-th expected character with the k-th heard one, with "" on the side that has run out |
| PhonemeDiff.PairUpSingleChars | sabdakrida/asr/phoneme_diff.py:36-42 | no entry has both sides empty, and every non-empty side is a single character |
| PhonemeDiff.PairUpColumns | sabdakrida/asr/phoneme_diff.py:37-42 | reading a paired block by column gives back the expected slice and the heard slice |
| PhonemeDiff.DiffOfSingleChars | sabdakrida/asr/phoneme_diff.py:32-42 | over any alignment, every diff entry is a pair of single characters or one character against "" |
| PhonemeDiff.OnlyReplaceEmits | sabdakrida/asr/phoneme_diff.py:32-33 | an alignment without `replace` blocks yields no entries: insertions and deletions are not reported |
| PhonemeDiff.DiffColumns | sabdakrida/asr/phoneme_diff.py:32-42 | the expected column of the diff spells exactly the replaced target text and the heard column the replaced heard text |
| PhonemeDiff.AppendPairs | sabdakrida/asr/phoneme_diff.py:34-42 | the two inner loops append exactly the positional pairing of the block |
| PhonemeDiff.Diff | sabdakrida/asr/phoneme_diff.py:23-43 | the opcode loop over the normalised pair returns the concatenated pairings of the replace blocks, for any valid alignment |
| PhonemeDiff.IdenticalTextsHaveNoDiff | sabdakrida/asr/phoneme_diff.py:23-43 | identical texts, aligned by one equal block, produce an empty diff |
| PhonemeDiff.RetroflexRegression | sabdakrida/asr/phoneme_diff.py:23-43 | ṭīkā heard as tīkā, under difflib's alignment, yields exactly `[("ṭ", "t")]` |
| PhonemeDiff.VowelLengthRegression | sabdakrida/asr/phoneme_diff.py:23-43 | kāla heard as kala, under difflib's alignment, yields exactly `[("ā", "a")]` |
| PhonemeDiff.MatchesBound | sabdakrida/asr/phoneme_diff.py:57-58 | the matched characters of an alignment number at most the length of either text |
| PhonemeDiff.FullMatchMeansEqual | sabdakrida/asr/phoneme_diff.py:57-58 | an alignment matching every character of both texts aligns equal texts |
| PhonemeDiff.Similarity | sabdakrida/asr/phoneme_diff.py:46-58 | the score lies in [0, 1]; it is 1.0 when both texts normalise to empty and 0.0 when only the target does |
| PhonemeDiff.PerfectSimilarityMeansSameText | sabdakrida/asr/phoneme_diff.py:53-58 | a score of 1.0 means that the normalised texts are equal |
| PhonemeDiff.IdenticalTextsScoreOne | sabdakrida/asr/phoneme_diff.py:53-58 | identical texts score 1.0 |
| SabdakridaData.Classify | sabdakrida/data/confusions.py:6-35 | a pair has a category exactly when it is a key of the table, and the category is one of the table's values |
| SabdakridaData.ConfusionValues | sabdakrida/data/confusions.py:6-35 | the table's values are exactly the eight categories retroflex_dental, aspiration, vowel_length, palatal_sibilant, retroflex_sibilant, sibilant_distinction, anusvara and visarga |
| SabdakridaData.EveryCategoryCovered | sabdakrida/data/explanations.py:5-54 | every category the table yields has an explanation and a non-empty list of drill words |
| SabdakridaData.CategoryExplained | sabdakrida/data/explanations.py:5-54 | each of the eight categories has an explanation spoken in the command tone |
| SabdakridaData.ConfusionIsDirectional | sabdakrida/data/confusions.py:8 | ("ṭ", "t") is a retroflex/dental error and ("t", "ṭ") has no category |
| SabdakridaData.ListedConfusions | sabdakrida/data/confusions.py:23-33 | ("ā", "a") is vowel_length, ("ś", "s") palatal_sibilant, ("ṣ", "ś") sibilant_distinction and ("ṃ", "m") anusvara |
| SabdakridaData.DigraphKeys | sabdakrida/data/confusions.py:11-21 | every aspiration key, and the keys of the aspirated retroflexes, has a two-character expected side |
| SabdakridaData.SingleCharsNeverAspiration | sabdakrida/data/confusions.py:14-21 | a pair of single characters, which is all a diff entry can hold, is never classified as aspiration |
| Mode1.RefEstimate | sabdakrida/assessment/mode1.py:48 | the reference duration is at least 0.5 s |
| Mode1.DurationFailure | sabdakrida/assessment/mode1.py:37-53 | the check fails exactly when the target has a long vowel and the audio lasts less than half the reference; a reference is reported exactly when there is a long vowel and the audio loaded; a load error never fails the check |
| Mode1.HasLongVowelChars | sabdakrida/assessment/mode1.py:24-43 | a target has a long vowel exactly when it contains ā, ī, ū or ṝ |
| Mode1.Round2Bounds | sabdakrida/assessment/mode1.py:77-81 | rounding to two decimals moves a value by at most 0.005 and keeps [0, 1] |
| Mode1.Score | sabdakrida/assessment/mode1.py:76-81 | no errors with a failed duration gives exactly 0.85; no errors with a passed duration gives at most 0.99; otherwise the rounded similarity |
| Mode1.ScoreBounds | sabdakrida/assessment/mode1.py:76-81 | for a similarity in [0, 1] the score lies in [0, 1], is below 1.0 when there are no errors, and is min(0.99, round(similarity, 2)) when the attempt is clean |
| Mode1.MappedTypesMembers | sabdakrida/assessment/mode1.py:84-87 | the mapped categories number at most the entries, and a category is listed exactly when some entry classifies to it |
| Mode1.ErrorTypesEmpty | sabdakrida/assessment/mode1.py:84-89 | the error types are empty exactly when the duration passed and no entry is a known confusion |
| Mode1.ErrorTypesAreCategories | sabdakrida/assessment/mode1.py:84-89 | every error type is one of the table's categories |
| Mode1.AspirationNeverDetected | sabdakrida/assessment/mode1.py:84-89 | over any alignment, "aspiration" is never among the error types, since diff entries hold single characters |
| Mode1.PositionDetail | sabdakrida/assessment/mode1.py:98-114 | a positioned entry yields at most one vowel_length detail, with a long vowel and a non-empty syllable |
| Mode1.LongInWord | sabdakrida/assessment/mode1.py:117 | the listed long vowels are exactly the long vowels that occur in the target |
| Mode1.ErrorDetailsShape | sabdakrida/assessment/mode1.py:96-125 | every detail is a vowel_length detail with a long vowel; positional details, when there are any, are the whole list; without a duration failure only positional details appear; at most one detail is added beyond the entries |
| Mode1.PositionDetailsShape | sabdakrida/assessment/mode1.py:98-114 | positional details are vowel_length details with long vowels, at most one per entry |
| Mode1.MostCommonSpec | sabdakrida/assessment/mode1.py:133-135 | the primary error is a listed type whose count no type exceeds, and no earlier type has the same count (`Counter.most_common` keeps first-seen order on ties) |
| Mode1.Feedback | sabdakrida/assessment/mode1.py:128-151 | a correct attempt gets the fixed praise; otherwise the first detail's message, when there is one, is the English feedback |
| Mode1.ExplanationTones | sabdakrida/data/explanations.py:5-54 | every explanation has the tone "command" |
| Mode1.FeedbackStyle | sabdakrida/assessment/mode1.py:128-151 | the style is "praise" exactly for a correct attempt and "command" otherwise |
| Mode1.FeedbackUsesPrimaryExplanation | sabdakrida/assessment/mode1.py:133-140 | with at least one error type, the Sanskrit response is the explanation of the most common type, in command style |
| Mode1.Unpositioned | sabdakrida/assessment/mode1.py:68 | dropping the positions keeps every entry's pair, in order |
| Mode1.CollectTypes | sabdakrida/assessment/mode1.py:84-89 | the loop computes the error types: the categories of mapped entries in order, then vowel_length on a duration failure |
| Mode1.CollectDetails | sabdakrida/assessment/mode1.py:96-125 | the loops compute the error details |
| Mode1.PronunciationSession | sabdakrida/assessment/mode1.py:56-165 | the session returns the specified result, and bumps the learner's weakness counters by its error types exactly when there are any |
| Mode1.SessionOutcome | sabdakrida/assessment/mode1.py:76-162 | the attempt is correct exactly when there are no diff entries and the duration check passed; the style follows correctness; the score lies in [0, 1] and is at most 0.99 even when correct |
| Mode1.SimilarityBounds | sabdakrida/assessment/mode1.py:71 | the base score lies in [0, 1] |
| WeaknessProfile.BumpAllCounts | sabdakrida/db/profile.py:31-40 | each occurrence of a type adds one to the learner's count for it, so duplicates add twice; a row exists afterwards exactly when it existed or the type occurred |
| WeaknessProfile.BumpAllOthers | sabdakrida/db/profile.py:27-40 | rows of other learners and of types not in the list keep their presence and their count |
| WeaknessProfile.BumpAllPositive | sabdakrida/db/profile.py:34-37 | every stored count stays at least 1 |
| WeaknessProfile.ErrorStore.constructor | sabdakrida/db/profile.py:20-30 | the table starts empty |
| WeaknessProfile.ErrorStore.UpdateUserProfile | sabdakrida/db/profile.py:17-42 | the counts become the old counts bumped once per listed type, and every count stays positive |
| WeaknessProfile.ErrorStore.GetDrillPriority | sabdakrida/db/profile.py:45-55 | the rows are exactly the learner's error types, each with its count, in non-increasing count order |
| WeaknessProfile.Ranked | sabdakrida/db/profile.py:49-53 | the selection loop yields each of the learner's types once with its count, largest count first |
| WeaknessProfile.TypesOfMeans | sabdakrida/db/profile.py:50 | a type is selected exactly when the learner has a row for it |
| WeaknessProfile.LargestCount | sabdakrida/db/profile.py:50 | the type picked from those left has a count no other type left exceeds |
| GameProfile.ZeroVec | games/user_profile.py:37-39 | the initial centroid has 4096 components, all zero |
| GameProfile.Ema | games/user_profile.py:42-53 | vectors of different lengths leave the current one unchanged; otherwise the result has the current length |
| GameProfile.EmaBetween | games/user_profile.py:50-53 | for α in [0, 1] each component of the average lies between the current and the new component |
| GameProfile.DefaultTopicMastery | games/user_profile.py:24-73 | the default mastery lists the six default topics in order, each at 0.0 |
| GameProfile.DefaultTopicMasteryDistinct | games/user_profile.py:73 | the default topics are distinct keys |
| GameProfile.LockedChapters | games/user_profile.py:34-75 | every chapter of the curriculum is present and locked |
| GameProfile.PostInit | games/user_profile.py:71-76 | empty mastery and empty chapter progress are replaced by their defaults, non-empty ones are kept, and no other field changes |
| GameProfile.NewProfileDefaults | games/user_profile.py:71-95 | a fresh profile has the six topics at 0.0, every chapter present with only ch2 active, current chapter ch2 and target difficulty 0.6 |
| GameProfile.MeanBounds | games/user_profile.py:269-270 | the mean of a non-empty window of scores in [0, 1] lies in [0, 1] |
| GameProfile.TargetDifficultyRange | games/user_profile.py:93-95 | the target difficulty is monotone in the average and lies in [0.2, 1.0] for an average in [0, 1] |
| GameProfile.FirstActive | games/user_profile.py:86-91 | the current chapter is always a chapter of the curriculum |
| GameProfile.FirstActiveInSpec | games/user_profile.py:86-91 | the scan returns an active chapter with no active chapter before it, or the last chapter when none from the start position is active |
| GameProfile.CurrentChapterSpec | games/user_profile.py:86-91 | the current chapter is the first active one in curriculum order, or ch9 when none is active |
| GameProfile.UserProfile.constructor | games/user_profile.py:56-76 | a new profile holds the given fields after the defaults are filled in |
| GameProfile.UserProfile.WeakTopics | games/user_profile.py:78-80 | a topic is weak exactly when its mastery is below the threshold |
| GameProfile.UserProfile.StrongTopics | games/user_profile.py:82-84 | a topic is strong exactly when its mastery is at least the threshold |
| GameProfile.UserProfile.CurrentChapter | games/user_profile.py:86-91 | the loop returns the first active chapter, or ch9 |
| GameProfile.UserProfile.Update | games/user_profile.py:214-272 | the profile becomes the specified update of its old state |
| GameProfile.UserProfile.RecordChunk | games/user_profile.py:231-237 | only the chunk states change, by adding the chunk when it is unseen |
| GameProfile.UserProfile.MoveCentroid | games/user_profile.py:240-249 | with a 4096-long embedding, a wrong answer moves only the weakness centroid and a right one only the strength centroid; any other embedding moves neither |
| GameProfile.UserProfile.PushAnswer | games/user_profile.py:256-270 | one answer entry and one score are appended to windows of 50 and 20, oldest first out, and the average becomes the mean of the score window |
| GameProfile.AddChunk | games/user_profile.py:232-237 | an unseen chunk gets stability 1.0, difficulty 0.5 and the date part of the clock; existing chunk states are unchanged |
| GameProfile.Push | games/user_profile.py:263-268 | the window gains the new item at its end and keeps at most its last n items |
| GameProfile.PushScoreInRange | games/user_profile.py:266-270 | scores stay in [0, 1] and so does their mean |
| GameProfile.Updated | games/user_profile.py:214-272 | at most one centroid changes; neither changes unless the embedding has 4096 components; a correct answer keeps the weakness centroid and a wrong one the strength centroid; user, seen drills and chapters are unchanged |
| GameProfile.UpdatedAverageInRange | games/user_profile.py:265-270 | after an update the average lies in [0, 1], and the target difficulty of lines 93-95 lies in [0.2, 1.0] |
| GameProfile.MasteryStep | games/user_profile.py:253-254 | the step keeps mastery in [0, 1], never lowers it on a correct answer and never raises it on a wrong one |
| GameProfile.UpdatedMastery | games/user_profile.py:252-254 | only the answered topic's mastery changes, by one step, and only when the topic is a key; keys and order are kept |
| GameProfile.MasteryStaysInRange | games/user_profile.py:252-254 | masteries in [0, 1] stay in [0, 1] |
| GameProfile.WeakAndStrongDisjoint | games/user_profile.py:78-84 | with the default thresholds, no topic is both weak and strong |
| GameProfile.RowOf | games/user_profile.py:197-208 | the saved row is well formed |
| GameProfile.LoadAvgAsWritten | games/user_profile.py:156 | as written, a stored average of 0.0 is replaced by 0.5 like a missing one |
| GameProfile.ZeroAverageReloadsAsDefault | games/user_profile.py:156-206 | a profile saved with average 0.0 reloads with average 0.5 |
| GameProfile.LoadAvg | games/user_profile.py:156 | corrected: a stored average is kept, and only a missing one becomes 0.5 |
| GameProfile.LoadedData | games/user_profile.py:141-171 | a loaded profile has distinct topics, windows of at most 50 answers and 20 scores, and the stored average read as written (0.0 and NULL become 0.5) |
| GameProfile.LoadedDataCorrected | games/user_profile.py:141-171 | corrected: the same profile, with the stored average kept whatever its value |
| GameProfile.SaveLoadRoundTrip | games/user_profile.py:126-211 | saving and reloading a profile gives it back, with its windows cut to the last 50 and 20 items, except that an average of 0.0 comes back as 0.5 |
| GameProfile.SaveLoadRoundTripCorrected | games/user_profile.py:126-211 | corrected: with the intended load, saving and reloading gives the profile back exactly, windows cut to 50 and 20 |
| GameProfile.NullChaptersLoadAsCh9 | games/user_profile.py:153 | a row without chapter progress reloads with every chapter locked, so the current chapter is ch9 (`current_chapter`, lines 86-91) |
| GameProfile.Database.constructor | games/user_profile.py:108-123 | the table starts empty |
| GameProfile.Database.Save | games/user_profile.py:174-211 | the learner's row is replaced by the profile's row, and other rows are kept |
| GameProfile.Database.Load | games/user_profile.py:126-171 | an unknown learner gets a fresh profile; a known one the loaded row with the defaults filled in and the average read as written |
| GameEngine.NewChallenge | games/engine/core.py:21-37 | a missing source-chunk list becomes [] and missing meta becomes {}; given values and every other field are kept |
| GameEngine.Verdict | games/engine/core.py:40-47 | an evaluation result has no rule id and an empty chunk id unless set |
| GameEngine.ChunkIdFor | games/engine/core.py:119 | the result's chunk id wins when non-empty, else the first source chunk id; the id is empty exactly when neither gives a non-empty one |
| GameEngine.EmbeddingFor | games/engine/core.py:123-127 | without a corpus, or when the lookup finds nothing, the embedding is empty; otherwise it is the corpus's embedding |
| GameEngine.ExplanationFrom | games/engine/core.py:148-156 | no chunks give empty source, text and ref; the first chunk's text is used, and its source defaults to "corpus" |
| GameEngine.CoreEngine.constructor | games/engine/core.py:80-86 | the engine keeps the corpus and TTS providers it is given |
| GameEngine.CoreEngine.UpdateProfile | games/engine/core.py:106-138 | without a chunk id nothing changes and nothing is saved; otherwise the profile is updated with the challenge's topic, the result's correctness and α = 0.1, and its row is saved |
| GameEngine.CoreEngine.Speak | games/engine/core.py:140-144 | without a TTS provider there is no audio; otherwise the provider's audio for the text and style |
| GameEngine.CoreEngine.Explain | games/engine/core.py:146-156 | without a corpus the explanation is empty; otherwise it comes from the first of two chunks retrieved for the rule's query |
| GameEngine.ExplainQuery | games/engine/core.py:149 | the query embeds the rule id between "Pāṇini sūtra " and " Whitney" |
| GameEngine.NoCorpusNoCentroidChange | games/engine/core.py:123-127 | without a corpus an update leaves both centroids unchanged |
| DhatuDash.NormalizeIast | games/dhatu_dash.py:20-22 | the normal form is the input stripped of surrounding white space and lower-cased |
| DhatuDash.NormalizeIastIdempotent | games/dhatu_dash.py:20-22 | normalising twice gives the same as normalising once |
| DhatuDash.WithDerivedSpec | games/dhatu_dash.py:55-58 | adding derived forms keeps the list duplicate-free and its prefix intact, adds every non-empty derived form and nothing else |
| DhatuDash.NormSetAppend | games/dhatu_dash.py:62 | the set of normal forms grows by exactly the appended name's normal form |
| DhatuDash.WithNamesShape | games/dhatu_dash.py:60-63 | adding `derivesTo` names keeps the list duplicate-free and its prefix intact, and adds only listed names |
| DhatuDash.WithNamesCovers | games/dhatu_dash.py:60-63 | every `derivesTo` name with a non-empty normal form is represented by that normal form afterwards |
| DhatuDash.ValidFormsSpec | games/dhatu_dash.py:52-64 | the root's form comes first, there are no duplicates, every non-empty derived form is in, every `derivesTo` name is represented, and nothing else is |
| DhatuDash.BuildValidForms | games/dhatu_dash.py:52-64 | the two loops build exactly the valid-form list |
| DhatuDash.Unused | games/dhatu_dash.py:36-37 | a form is unused exactly when it is valid and not yet in the tree |
| DhatuDash.ExhaustedMeansAllProduced | games/dhatu_dash.py:39-40 | a session is exhausted exactly when every valid form is in the tree |
| DhatuDash.DhatuSession.constructor | games/dhatu_dash.py:25-34 | a session holds exactly the data it is built with |
| DhatuDash.DhatuSession.UnusedForms | games/dhatu_dash.py:36-37 | the session's unused forms are its valid forms not in its tree |
| DhatuDash.DhatuSession.Accept | games/dhatu_dash.py:192-193 | accepting a form adds it to the tree and raises the count by one; nothing else changes |
| DhatuDash.FormInfo | games/dhatu_dash.py:195-199 | a form found for the explanation has the answer's normal form |
| DhatuDash.FirstWithId | games/dhatu_dash.py:195 | the root found has the session's id; none is found only when no root has it |
| DhatuDash.FirstForm | games/dhatu_dash.py:196-199 | the derived form found is one of the root's and has the answer's normal form |
| DhatuDash.FirstMatch | games/dhatu_dash.py:189-190 | the loop stops at the first valid form whose normal form is the answer's, and runs off the end exactly when none matches |
| DhatuDash.JudgeSpec | games/dhatu_dash.py:176-217 | an answer is correct exactly when its normal form is new and matches a valid form; then the tree grows by that form and the count by one, else the session is unchanged; a repeat is reported as such |
| DhatuDash.Candidates | games/dhatu_dash.py:86-89 | roots are drawn from the loaded ones, and there is a candidate exactly when some root is loaded |
| DhatuDash.CommonOf | games/dhatu_dash.py:86-87 | the common candidates are the loaded roots whose id is one of the five common ones |
| DhatuDash.NewSessionData | games/dhatu_dash.py:108-115 | a new session has only the root in its tree, count 0 and the root's valid forms |
| DhatuDash.NewSessionTreeIsRoot | games/dhatu_dash.py:108-118 | a new session is exhausted only when every valid form is the root itself |
| DhatuDash.ChallengeForSpec | games/dhatu_dash.py:117-150 | the challenge carries the session; it is marked exhausted exactly when nothing is unused, and otherwise offers exactly the unused forms as answers and valid forms |
| DhatuDash.DhatuDashEngine.constructor | games/dhatu_dash.py:76-79 | the engine keeps its core and the loaded roots |
| DhatuDash.DhatuDashEngine.PickRoot | games/dhatu_dash.py:81-90 | no root is picked exactly when none is loaded; otherwise a candidate is |
| DhatuDash.DhatuDashEngine.Generate | games/dhatu_dash.py:92-150 | the difficulty defaults to the profile's target; the given session is continued, or a fresh one on a candidate root is started; the error case is exactly no session and no roots |
| DhatuDash.DhatuDashEngine.Evaluate | games/dhatu_dash.py:152-217 | an exhausted or incomplete challenge is refused and changes nothing; otherwise the answer is judged against the live session, which is updated in place |
| DhatuDash.DhatuDashEngine.JudgeSession | games/dhatu_dash.py:176-217 | the verdict and the session's new state are those of the judging function |
| DhatuDash.DhatuDashEngine.AcceptAnswer | games/dhatu_dash.py:189-208 | for a new form that matches a valid form, the form joins the tree, the count grows by one, and the verdict is the accepting one of the judging function |
| DhatuDash.DhatuDashEngine.SessionFrom | games/dhatu_dash.py:219-221 | the session is the challenge meta's `session` entry, when there is one |
| GamesRouter.RestoreSession | sabdakrida/routers/games.py:146-155 | a session object restores exactly when every field present has the type a session is sent with; then each field takes its value or its default, and the tree is the set of the listed forms |
| GamesRouter.EmptyObjectRestoresDefaults | sabdakrida/routers/games.py:147-155 | an empty object restores to empty root fields, no forms, an empty tree and count 0 |
| GamesRouter.SessionJsonKeys | sabdakrida/routers/games.py:58-66 | a sent session has each of its seven keys once |
| GamesRouter.SessionJsonFields | sabdakrida/routers/games.py:58-66 | each field of a sent session reads back as the session's value |
| GamesRouter.SessionRoundTrip | sabdakrida/routers/games.py:58-66 | restoring a sent session gives the same session back, whatever order the tree was listed in |
| GamesRouter.Rendered | sabdakrida/routers/games.py:56-70 | each meta entry is rendered in place, with its value as JSON |
| GamesRouter.CopyEntriesDistinct | sabdakrida/routers/games.py:55-70 | the copied dictionary has each key once |
| GamesRouter.CopyEntriesKeys | sabdakrida/routers/games.py:56-70 | the copy has exactly the keys of the meta other than "exhausted" |
| GamesRouter.CopyEntriesValues | sabdakrida/routers/games.py:56-70 | every key but "exhausted" keeps its value in the copy |
| GamesRouter.SerializedSpec | sabdakrida/routers/games.py:51-73 | an empty meta serialises to {}; every other key is copied (a session as its fields); "exhausted" appears, as true, exactly when it was truthy |
| GamesRouter.SerializeMeta | sabdakrida/routers/games.py:51-73 | the loop produces exactly the serialised meta |
| GamesRouter.SerializedSessionRestores | sabdakrida/routers/games.py:143-162 | the meta returned after an answer restores, on the next request, to the live session's current state |
| GamesRouter.SortedListsSet | sabdakrida/routers/games.py:63 | listing a tree gives each of its forms once and nothing else |
| GamesRouter.WrapAnswer | sabdakrida/routers/games.py:35-39 | a list answer is kept, another truthy answer becomes a one-element list, and a missing or falsy one becomes [] |
| GamesRouter.ChallengeFromBody | sabdakrida/routers/games.py:32-48 | missing body fields take the defaults "", "dhatu_dash", "dhatu", [] and {}, and the answer is always a list |
| GamesRouter.ParseCorrectAnswer | sabdakrida/routers/games.py:115-118 | the answer is decoded only when it starts with "[" and decodes; otherwise it is the one-element list of itself |
| GamesRouter.PlainAnswerIsWrapped | sabdakrida/routers/games.py:116 | a plain answer such as "bhavati" becomes ["bhavati"] whatever the decoder does |
| GamesRouter.PlainMeta | sabdakrida/routers/games.py:139 | the decoded meta reaches the engine entry by entry with plain values |
| GamesRouter.RestoreMeta | sabdakrida/routers/games.py:143-155 | a "session" object is replaced by a fresh live session holding its restored data, all other entries are kept; a non-object session is left alone; an object of the wrong shape is the error case |
| RagBuild.FirstTopicSpec | rag/build_sanskrit_rag.py:88-93 | over any topic table without a "general" entry, the result is "general" exactly when no topic's keywords occur, and otherwise the first topic in order whose keywords occur |
| RagBuild.NoTopicIsGeneral | rag/build_sanskrit_rag.py:67-85 | no topic of the keyword table is called "general" |
| RagBuild.InferTopicSpec | rag/build_sanskrit_rag.py:67-93 | a text gets "general" exactly when no keyword of any topic is in its lower-cased form; otherwise it gets the first topic in declaration order with a keyword in it |
| RagBuild.SandhiComesFirst | rag/build_sanskrit_rag.py:67-92 | a text that mentions sandhi is filed under sandhi, whatever later topics it also mentions |
| RagBuild.CloseAt | rag/build_sanskrit_rag.py:278 | the first '>' at or after the position, or the end when there is none |
| RagBuild.Untag | rag/build_sanskrit_rag.py:278 | removing tags never lengthens the text |
| RagBuild.UntagChars | rag/build_sanskrit_rag.py:278 | removing tags only keeps characters of the input or writes spaces |
| RagBuild.UntagPlain | rag/build_sanskrit_rag.py:278 | a text without '<' is unchanged |
| RagBuild.UntagLeavesNoTag | rag/build_sanskrit_rag.py:278 | nothing that looks like a tag survives |
| RagBuild.StripXmlTagsSpec | rag/build_sanskrit_rag.py:276-278 | the result has no white space at either end, and a text without tags is only trimmed |
| RagBuild.RefId | rag/build_sanskrit_rag.py:176-186 | a reference a.p.n with dot-free parts gives the id a_p_n |
| RagBuild.DigitsHaveNoMarks | rag/build_sanskrit_rag.py:186 | numeric reference parts hold no dot and no underscore |
| RagBuild.RefIdInjective | rag/build_sanskrit_rag.py:176-186 | numeric references that give the same id are the same reference |
| RagBuild.PaniniIdsDistinct | rag/build_sanskrit_rag.py:175-186 | two sūtras with numeric references share an id only when their references agree |
| RagBuild.PaniniTextSpec | rag/build_sanskrit_rag.py:181-183 | a sūtra's text starts with the reference, topic and sūtra, and ends with " — " and the gloss exactly when the gloss is non-empty |
| RagBuild.PaniniChunkSpec | rag/build_sanskrit_rag.py:175-195 | the topic comes from the gloss when there is one and from the sūtra otherwise; text and metadata carry the same reference and topic |
| RagBuild.LoadPanini | rag/build_sanskrit_rag.py:155-198 | a missing file gives no chunks; otherwise one chunk per sūtra, in order |
| RagBuild.DhatuTextSpec | rag/build_sanskrit_rag.py:213-226 | a root's text is its header plus exactly the meaning, English meaning and commentary segments that are non-empty, and ends with the commentary when there is one |
| RagBuild.DhatuIdClean | rag/build_sanskrit_rag.py:229 | a root's id starts with "dhatu_" and holds no dot and no space |
| RagBuild.LoadDhatupatha | rag/build_sanskrit_rag.py:202-234 | a missing file gives no chunks; otherwise one chunk per entry, numbered by position |
| RagBuild.NumberedPairs | rag/build_sanskrit_rag.py:110-115 | a page split at its paragraph numbers gives one (number, body) pair per number |
| RagBuild.WhitneyNumberedSources | rag/build_sanskrit_rag.py:111-130 | the numbered chunks are, in order and numbered from 1, those of exactly the paragraphs whose body has at least 40 characters |
| RagBuild.WhitneyIdsDistinct | rag/build_sanskrit_rag.py:119-121 | within a chapter whose name has no "_", the numbered chunks have distinct ids |
| RagBuild.WhitneyIdNumber | rag/build_sanskrit_rag.py:121 | two ids of one chapter that agree carry the same running number |
| RagBuild.Stripped | rag/build_sanskrit_rag.py:133 | each piece is stripped in place |
| RagBuild.FallbackParagraphsSpec | rag/build_sanskrit_rag.py:133-134 | at most 80 fallback paragraphs, each of at least 80 characters and each a stripped piece of the text between blank lines |
| RagBuild.ScrapeWhitney | rag/build_sanskrit_rag.py:97-151 | the chapter loop gives exactly the chunks of every chapter whose page was found, in order; chapters without a page add nothing |
| RagBuild.WhitneyPage | rag/build_sanskrit_rag.py:112-130 | the paragraph loop gives exactly the numbered chunks of the page |
| RagBuild.Sanitize | rag/build_sanskrit_rag.py:303 | the result has the same length and only word characters, and keeps every word character in place |
| RagBuild.MwFrom | rag/build_sanskrit_rag.py:293-306 | no more than 45000 dictionary chunks |
| RagBuild.MwFromSpec | rag/build_sanskrit_rag.py:293-306 | every headed entry is kept until 45000 are loaded, and the chunk at position k has an id starting "mw_k_" |
| RagBuild.LoadMwCologne | rag/build_sanskrit_rag.py:280-308 | a missing file gives no chunks; otherwise the chunks of the entry matches |
| Sandhi.VowelSandhi | lib/sandhi.ts:4-26 | whenever a vowel rule applies the joined text is non-empty, so `applySandhi`'s truthiness test only rejects null |
| Sandhi.VowelCoalescence | lib/sandhi.ts:8-19 | a+a→ā, a+i→e, a+u→o, ā+i→ai and ā+u→au each replace word1's last and word2's first character by the single result |
| Sandhi.LongABeforeA | lib/sandhi.ts:11 | ā (or a) before a keeps word1 whole and drops word2's initial a |
| Sandhi.Semivowel | lib/sandhi.ts:20-23 | a final i/ī before a vowel becomes y, a final u/ū becomes v, and word2 is kept whole |
| Sandhi.VowelSandhiNone | lib/sandhi.ts:4-25 | the result is null exactly when no junction of the rule table matches |
| Sandhi.VowelSandhiCaseInsensitive | lib/sandhi.ts:5-6 | whether a vowel rule applies does not depend on the case of the junction characters |
| Sandhi.EmptyFollowerSemivowel | lib/sandhi.ts:6-21 | an empty word2 counts as a vowel after a final i, because every string includes "" |
| Sandhi.VisargaSandhiAsWritten | lib/sandhi.ts:29-40 | the rule fires exactly when word1 ends in ḥ/h and word2 is empty or starts with a listed voiced sound or a vowel |
| Sandhi.VisargaKeepsStemA | lib/sandhi.ts:37 | as written, "rāmaḥ" + "gacchati" gives "rāmao gacchati" |
| Sandhi.VisargaSandhi | lib/sandhi.ts:29-40 | the same firing condition as the source, with a final aḥ/ah becoming o |
| Sandhi.VisargaSandhiSpec | lib/sandhi.ts:29-40 | the firing condition in terms of the last and first characters, and the joined text with one space |
| Sandhi.VisargaValue | lib/sandhi.ts:29-40 | when the rule fires, a final aḥ/ah becomes o and any other final ḥ/h becomes o, then a space and word2 |
| Sandhi.VisargaBeforeVoicelessStop | lib/sandhi.ts:33-39 | before k, c, ṭ, t or p neither version of the visarga rule applies |
| Sandhi.VisargaExample | lib/sandhi.ts:28-37 | "rāmaḥ" + "gacchati" gives "rāmo gacchati" |
| Sandhi.ApplySandhiSpec | lib/sandhi.ts:71-79 | vowel sandhi first, then the as-written visarga sandhi (final ḥ/h to o) trimmed, otherwise "w1 w2" with no rule id; no rule id exactly when neither rule applies |
| Sandhi.ApplySandhiCorrectedSpec | lib/sandhi.ts:71-79 | corrected: the join with the corrected visarga rule reports the same rule as the source and differs from it only in the visarga text, where a final aḥ/ah becomes o |
| Sandhi.RemoveAll | lib/sandhi.ts:49 | `replace(/h/g, "")` leaves no h and adds no character |
| Sandhi.DeaspirateSpec | lib/sandhi.ts:49 | a de-aspirated phoneme has no h, ṭ or ḍ and is no longer than before |
| Sandhi.DeaspiratedIsPlain | lib/sandhi.ts:46-49 | without an upper-case H, a de-aspirated phoneme is no longer an aspirate |
| Sandhi.Grassmann | lib/sandhi.ts:43-53 | length is preserved and each phoneme is de-aspirated exactly when it is an aspirate preceded by another aspirate |
| Sandhi.ApplyGrassmannsLaw | lib/sandhi.ts:43-53 | the single pass with the `foundFirst` flag computes `Grassmann` |
| Sandhi.GrassmannSpec | lib/sandhi.ts:43-53 | every phoneme up to and including the first aspirate is unchanged, and every later aspirate is de-aspirated |
| Sandhi.GrassmannOneAspirate | lib/sandhi.ts:42-53 | with no upper-case H in the input, at most one aspirate is left in the result |
| Sandhi.SkipSpace | lib/sandhi.ts:59-61 | `\s*` consumes a maximal whitespace run |
| Sandhi.MatchEnd | lib/sandhi.ts:59-61 | a match of `before\s*\+\s*after` ends after the literal prefix |
| Sandhi.FirstMatch | lib/sandhi.ts:65 | the match found is the leftmost one, and none is found only when no position matches |
| Sandhi.ApplyBartholomaesLaw | lib/sandhi.ts:56-68 | the loop applies the three patterns in order, each to its leftmost match |
| Sandhi.NoPlusUnchanged | lib/sandhi.ts:58-66 | a word without '+' is returned unchanged |
| Sandhi.BartholomaeBudh | lib/sandhi.ts:57-59 | "budh + ta" becomes "buddha" |
| Sandhi.ReplaceFirstAt | lib/sandhi.ts:65 | a non-global replace substitutes the leftmost match only |
| Sandhi.FirstRule | lib/sandhi.ts:82-95 | the rule found has a matching example; none is found exactly when no rule has one |
| Sandhi.FirstRuleAt | lib/sandhi.ts:88-91 | the first rule with a matching example is the one returned |
| Sandhi.FindMatchingRule | lib/sandhi.ts:82-95 | the nested scan over rules and examples returns `FirstRule` |
| Sandhi.CombinedConflates | lib/sandhi.ts:87-91 | inputs are compared only after joining with a space, so ("a b","c") and ("a","b c") find the same rule |
| RootForms.DropLongA | lib/games/dhatus.ts:33 | a leading ā becomes a, and nothing else changes |
| RootForms.AllForms | lib/games/dhatus.ts:27-37 | the list of forms always starts with the root's IAST |
| RootForms.GetAllFormsForRoot | lib/games/dhatus.ts:27-37 | the two appending loops compute `AllForms` |
| RootForms.WithDerivedSpec | lib/games/dhatus.ts:29-31 | derived forms are added without exact duplicates; every non-empty one is present, and nothing else is added |
| RootForms.WithNamesSpec | lib/games/dhatus.ts:32-35 | only derivesTo names are added; every non-empty name ends up present or its ā-normalised, lower-cased key matches a form |
| RootForms.AllFormsSpec | lib/games/dhatus.ts:27-37 | every form is the root, a derived form or a name; every non-empty derived form is present; the root and derived forms are distinct |
| RootForms.LongANameDuplicated | lib/games/dhatus.ts:33-34 | a name with a leading ā never matches itself, so "āp" is listed twice |
| RootForms.RootIsOwnForm | lib/games/dhatus.ts:39-43 | `isFormOfRoot(d.iast, d)` holds for a root without surrounding whitespace |
| RootForms.DerivedIsForm | lib/games/dhatus.ts:39-43 | every non-empty, unpadded derived form is a form of the root |
| RootForms.FormIgnoresPadding | lib/games/dhatus.ts:41 | surrounding whitespace in the input never changes the answer |
| RootForms.FormOfRootSound | lib/games/dhatus.ts:39-43 | an accepted input is, up to case and padding, the root, a derived form or a derivesTo name |
| Derivation.FindNode | lib/derivation.ts:25 | the node found has the id and is in the list; none is found exactly when no node has the id |
| Derivation.BuildDerivationTree | lib/derivation.ts:17-36 | the recursion over found children, with a depth bound, computes `BuildFuel` |
| Derivation.ChildrenNoneExtends | lib/derivation.ts:24-29 | a child that does not return stops the whole loop |
| Derivation.BuildFuelShape | lib/derivation.ts:17-36 | a returned tree keeps the root, has empty `steps`, and its children's roots are the found `derivesTo` nodes in order, with unknown ids skipped, at every level |
| Derivation.ChildrenFuelShape | lib/derivation.ts:22-29 | the children pushed are the trees of the found nodes, in `derivesTo` order |
| Derivation.ChildBlocks | lib/derivation.ts:24-29 | one child whose recursion does not return blocks the loop |
| Derivation.CycleNeverBuilds | lib/derivation.ts:26 | from any node on a cycle of `derivesTo`, the recursion returns within no depth bound |
| Derivation.SelfLoopNeverBuilds | lib/derivation.ts:26 | a node that derives to itself never finishes building |
| Derivation.ChildrenGuardedSpec | lib/derivation.ts:22-29 | with cycles cut, the children are the found nodes not already on the path, in order, and have no steps |
| Derivation.FoundFreshAll | lib/derivation.ts:22-29 | where no node is on the path, cutting cycles skips nothing |
| Derivation.SelfLoopIsLeaf | lib/derivation.ts:17-36 | with cycles cut, a self-deriving node gives a tree with no children |
| Derivation.TraverseTree | lib/derivation.ts:53-60 | the recursive pushing traversal computes the pre-order list `Preorder` |
| Derivation.PreorderSpec | lib/derivation.ts:53-60 | the traversal has one entry per tree node, starts with the root at the given depth, and all depths lie between the given depth and the deepest level |
| Derivation.PreorderAllSpec | lib/derivation.ts:56-58 | the children's traversals together have one entry per node, at depths within the children's levels |
| Derivation.FirstChildFollowsRoot | lib/derivation.ts:55-57 | the entry after the root is the first child at depth + 1 |
| Derivation.FirstDeriving | lib/derivation.ts:65-72 | the root found derives to a node with the word; none is found exactly when no candidate does |
| Derivation.FirstDerivingAt | lib/derivation.ts:65-72 | the first qualifying root in order is the one returned |
| Derivation.FindRootForWord | lib/derivation.ts:63-73 | the nested scan returns `FirstDeriving` over the "dhatu" nodes |
| Derivation.FindRootSpec | lib/derivation.ts:63-73 | the result is a "dhatu" node that derives to a node whose IAST or Devanagari is the word; none is found exactly when no "dhatu" node does |
| DrawRecognize.Binarized | lib/drawRecognize.ts:89-95 | the binarised image has the input's length, and pixel i is 1 exactly when the gray level exceeds 48, else 0 |
| DrawRecognize.Binarize | lib/drawRecognize.ts:89-95 | fills a fresh buffer, pixel by pixel, with exactly the binarised image |
| DrawRecognize.BoxAfterSpec | lib/drawRecognize.ts:102-112 | the running box bounds every ink pixel scanned so far; with no ink it stays (64, 64, 0, 0), otherwise it lies inside the image |
| DrawRecognize.BoxAttained | lib/drawRecognize.ts:102-112 | each side of the box passes through an ink pixel, so the box is the tightest one |
| DrawRecognize.FewInkDegenerate | lib/drawRecognize.ts:113-115 | an image with no ink or a single ink pixel is less than 2 wide or high, so it is returned unchanged |
| DrawRecognize.BoxInside | lib/drawRecognize.ts:113-115 | when the image is fitted, its box lies inside the image, so every sampled pixel is in range |
| DrawRecognize.NormalizeToFit | lib/drawRecognize.ts:101-131 | returns the very input buffer when the ink is under 2 pixels wide or high, and otherwise a fresh buffer holding the fitted image |
| DrawRecognize.FillFit | lib/drawRecognize.ts:117-130 | the sampling loops produce exactly the fitted image, pixels left unmarked staying 0 |
| DrawRecognize.FitStep | lib/drawRecognize.ts:119-128 | one target pixel becomes the ink of the box pixel it samples, and nothing else changes |
| DrawRecognize.FitCell | lib/drawRecognize.ts:117-130 | every fitted pixel is 0 or 1, and every pixel outside the central 56×56 region is 0 |
| DrawRecognize.FitSeq | lib/drawRecognize.ts:117-130 | the fitted image is 0/1 and its 4-pixel border is blank |
| DrawRecognize.FittedInkSound | lib/drawRecognize.ts:119-124 | every ink pixel of the fitted image samples an ink pixel inside the bounding box |
| DrawRecognize.BlankGap | lib/drawRecognize.ts:117-118 | the stretches between the sampled rows lie in the blank border |
| DrawRecognize.DistanceTransform | lib/drawRecognize.ts:136-168 | initialises 0 on ink and 1e6 elsewhere, then runs the forward and backward passes in place, producing exactly the chamfer distances |
| DrawRecognize.ForwardPass | lib/drawRecognize.ts:141-153 | rows top to bottom, pixels left to right, produce the forward-pass distances |
| DrawRecognize.ForwardStep | lib/drawRecognize.ts:143-151 | an ink pixel is skipped; any other pixel takes the least of itself and its left, up, up-left and up-right neighbours plus 4, 4, 3 and 3; nothing else changes |
| DrawRecognize.BackwardPass | lib/drawRecognize.ts:154-166 | rows bottom to top, pixels right to left, produce the backward-pass distances |
| DrawRecognize.BackwardRow | lib/drawRecognize.ts:156-165 | one row, right to left, advances the backward pass by exactly that row |
| DrawRecognize.BackwardStep | lib/drawRecognize.ts:156-164 | an ink pixel is skipped; any other pixel takes the least of itself and its right, down, down-right and down-left neighbours plus 4, 4, 3 and 3; nothing else changes |
| DrawRecognize.ForwardNext | lib/drawRecognize.ts:142-144 | the forward pass visits pixel (x, y) as its (64y + x + 1)-th step |
| DrawRecognize.BackwardNext | lib/drawRecognize.ts:155-157 | the backward pass visits pixel (x, y) as its (4096 − (64y + x))-th step |
| DrawRecognize.ForwardAtGood | lib/drawRecognize.ts:143-151 | one forward relaxation keeps distances 0 exactly on ink, within [0, 1e6], and either 1e6 or a sum of steps of 3 and 4 |
| DrawRecognize.BackwardAtGood | lib/drawRecognize.ts:156-164 | one backward relaxation keeps the same three facts |
| DrawRecognize.DistancesSpec | lib/drawRecognize.ts:136-168 | the final distance is 0 exactly on ink, lies in [0, 1e6], and is either 1e6 or a sum of steps of 3 and 4 |
| DrawRecognize.ChamferSimilarity | lib/drawRecognize.ts:174-193 | both transforms and one summing loop compute exactly 1 / (1 + the mean of the two directed mean distances) |
| DrawRecognize.MaskedSumZero | lib/drawRecognize.ts:178-186 | a directed sum is non-negative, and it is 0 exactly when every ink pixel of one image is at distance 0 in the other |
| DrawRecognize.DirectedMeanZero | lib/drawRecognize.ts:188-189 | a directed mean is non-negative, and it is 0 exactly when every ink pixel of the first image is ink in the second, including when the first has no ink |
| DrawRecognize.SimilaritySpec | lib/drawRecognize.ts:174-193 | the similarity lies in (0, 1], and it is 1 exactly when the two images have ink at the same pixels |
| DrawRecognize.Mass | lib/drawRecognize.ts:209 | the ink mass is the sum of the image's values |
| DrawRecognize.MatchByPixels | lib/drawRecognize.ts:204-227 | prepares the drawing, rejects mass under 8, keeps the first option with the strictly highest similarity, and answers only above 0.35 |
| DrawRecognize.Prepare | lib/drawRecognize.ts:209 | a canvas read binarised and fitted to the box is a fresh array holding the prepared image |
| DrawRecognize.ScoreOption | lib/drawRecognize.ts:217-219 | the score of one option is the similarity of the drawing to that option's prepared reference |
| DrawRecognize.BestOfSpec | lib/drawRecognize.ts:212-224 | the kept option scores at least as high as every option and strictly higher than every earlier one; none is kept only when there are no options |
| DrawRecognize.MatchSpec | lib/drawRecognize.ts:209-226 | too little ink gives no answer; any answer is an option scoring above 0.35 that no option beats and no earlier option ties |
| DrawRecognize.ReferenceIsImage | lib/drawRecognize.ts:244-248 | every reference, stored drawing or rendered glyph, is a whole 64×64 image |
| DrawRecognize.MatchByPixelsWithRefs | lib/drawRecognize.ts:233-260 | the same matcher, with each option's reference taken from a stored drawing when one is present and decodes, and the rendered glyph otherwise |
| DrawRecognize.TimesIsProduct | lib/drawRecognize.ts:120-121 | the repeated-addition product used for the sampling offsets is the product `t * bw` |
| Recognize.ArgMaxSpec | lib/recognize.ts:150-157 | the chosen class holds the greatest logit of its time step and every earlier class a strictly smaller one, so ties go to the lowest index |
| Recognize.ArgMaxRange | lib/recognize.ts:150-157 | with at least one class, the chosen class is a class index |
| Recognize.ArgMaxNonNegative | lib/recognize.ts:150 | the chosen class is never negative, so it never equals the "after blank" marker -1 |
| Recognize.CtcGreedyDecode | lib/recognize.ts:141-167 | the nested loops produce exactly the decoder state: the argmax per time step, merged with its predecessor and dropped when blank |
| Recognize.DecodeIsCollapse | lib/recognize.ts:147-166 | the decoded classes are the textbook CTC collapse of the argmax path (drop blanks, keep a class only where it differs from the step before), and `prev` is the last class unless that was blank |
| Recognize.CollapseBounds | lib/recognize.ts:159-164 | the collapse holds no blank, is no longer than the path, and holds only classes of the path |
| Recognize.PathInRange | lib/recognize.ts:149-158 | every class on the argmax path is in [0, numClasses) when there is a class |
| Recognize.DecodeBounds | lib/recognize.ts:147-166 | the output never holds the blank, is at most seqLen long, and holds class indices only |
| Recognize.CollapseRuns | lib/recognize.ts:159-164 | a run a a a yields one a, while a blank a yields a a |
| Recognize.DownsampleTo32x32 | lib/recognize.ts:307-323 | the four nested loops produce exactly the downsampled image, 1024 pixels |
| Recognize.DownsampledSpec | lib/recognize.ts:311-320 | output pixel (x, y) is 0 or 1, and it is 1 exactly when one of the four pixels of its 2×2 source block is above 0 |
| Recognize.GroupsUpTo | lib/recognize.ts:247-259 | the number of dark-column groups never exceeds the number of columns |
| Recognize.CountDarkColumnGroups | lib/recognize.ts:240-261 | scanning each column down to its first dark pixel counts exactly the columns where a run of dark columns begins |
| Recognize.GroupsSpec | lib/recognize.ts:247-259 | there are no more groups than dark columns, and none exactly when no column is dark |
| Recognize.RouteFor | lib/recognize.ts:264-303 | the word model is used exactly when the aspect exceeds 2 and there are more than 20 groups; supplied pixels are used exactly when the input is a character and 1024 pixels are given |
| Recognize.SquareIsChar | lib/recognize.ts:273-274 | a canvas at most twice as wide as high always goes to the character model |
| DrawConfusables.KeyInjective | lib/drawConfusables.ts:33-35 | a key `a\0b` built from separator-free parts determines both parts, whatever the queried strings contain |
| DrawConfusables.PairKeysListed | lib/drawConfusables.ts:32-36 | a key is in the set after n insertions exactly when its parts form one of the first n pairs, in either order |
| DrawConfusables.BuildPairSet | lib/drawConfusables.ts:32-36 | the initialisation loop stores exactly both orders of every listed pair |
| DrawConfusables.ConfusableIff | lib/drawConfusables.ts:5-42 | `isConfusable(a, b)` holds exactly when a = b or the unordered pair {a, b} is listed; in particular every character is confusable with itself |
| DrawConfusables.ConfusableSymmetric | lib/drawConfusables.ts:32-36 | the relation is symmetric, because both orders are inserted |
| DrawConfusables.PaPhaNotConfusable | lib/drawConfusables.ts:21-22 | प and फ are not accepted for each other in either order |
| DrawConfusables.KaKhaConfusable | lib/drawConfusables.ts:7 | the listed pair क/ख is accepted in both orders |
| Wav.U16RoundTrip | lib/audioUtils.ts:20-21 | a 16-bit field written little-endian reads back as its value modulo 2^16 |
| Wav.I16RoundTrip | lib/audioUtils.ts:31 | a signed 16-bit value stored by `setInt16` reads back as itself |
| Wav.U32RoundTrip | lib/audioUtils.ts:16 | a 32-bit field written little-endian reads back as its value modulo 2^32 |
| Wav.PcmSpec | lib/audioUtils.ts:30-31 | a sample is clamped to [-1, 1], scaled by 0x8000 below zero and 0x7fff above and truncated: it fits int16, saturates at ±full scale and keeps its sign |
| Wav.PrefixStep | lib/audioUtils.ts:12-14 | storing a field right after a correctly written prefix extends the prefix and leaves later bytes alone |
| Wav.WriteBytes | lib/audioUtils.ts:12-14 | the byte loop stores exactly the given bytes from the offset and nothing else |
| Wav.WriteRiff | lib/audioUtils.ts:15-17 | bytes 0-11 become `RIFF`, the RIFF size and `WAVE`; the rest of the buffer is untouched |
| Wav.WriteFmtCodec | lib/audioUtils.ts:18-21 | bytes 12-23 become `fmt `, 16, 1 and 1; later bytes are untouched |
| Wav.WriteFmtRates | lib/audioUtils.ts:22-25 | bytes 24-35 become the rate, the byte rate, 2 and 16; later bytes are untouched |
| Wav.WriteData | lib/audioUtils.ts:26-27 | bytes 36-43 become `data` and the data size; the samples region is untouched |
| Wav.WriteHeader | lib/audioUtils.ts:15-27 | the header writes leave exactly the 44-byte canonical header in front and the sample region unchanged |
| Wav.WriteSamples | lib/audioUtils.ts:29-32 | the sample loop places every sample's int16 bytes at 44 + 2i |
| Wav.EncodeWav | lib/audioUtils.ts:3-34 | a fresh buffer of 44 + 2n bytes holding exactly the header followed by the encoded samples |
| Wav.HeaderTags | lib/audioUtils.ts:15-26 | the tags `RIFF`, `WAVE`, `fmt ` and `data` sit at offsets 0, 8, 12 and 36 |
| Wav.HeaderSizes | lib/audioUtils.ts:16-27 | the u32 at offset 4 reads 36 + 2n and the one at 40 reads 2n (modulo 2^32) |
| Wav.HeaderCodecFields | lib/audioUtils.ts:19-21 | the fmt chunk size reads 16, the format 1 (PCM) and the channel count 1 |
| Wav.HeaderRateFields | lib/audioUtils.ts:22-25 | the sample rate, byte rate 2·rate, block align 2 and 16 bits per sample read back |
| Wav.SampleReadsBack | lib/audioUtils.ts:29-32 | the signed word at 44 + 2i reads back as sample i clamped, scaled and truncated |
| Wav.HeaderFmtSlices | lib/audioRecorder.ts:21-28 | the recorder's copy writes the same `fmt ` sub-chunk at bytes 12-35 (the copy is textually the same function) |
| Wav.SampleBytesAt | lib/audioRecorder.ts:32-35 | in the recorder's copy too, sample i occupies bytes 2i and 2i+1 of the data region |
| VoiceRecording.Resolve | lib/audioRecorder.ts:55-61 | each option given is kept, each one missing takes its default |
| VoiceRecording.DefaultOptions | lib/audioRecorder.ts:57-59 | the defaults are 16000 Hz, threshold 0.01 and 1000 ms of silence |
| VoiceRecording.Level | lib/audioRecorder.ts:98 | the mean spectrum level divided by 255 lies in [0, 1] |
| VoiceRecording.SilentSpectrum | lib/audioRecorder.ts:98-99 | an all-zero spectrum has level 0 and never counts as sound |
| VoiceRecording.Tick | lib/audioRecorder.ts:99-100 | the last-sound time moves to now exactly when the level exceeds the threshold, and the detector fires exactly when now minus that time reaches the silence duration |
| VoiceRecording.LoudTickNeverStops | lib/audioRecorder.ts:99-100 | a tick that hears sound never stops recording when the duration is positive |
| VoiceRecording.QuietTickStops | lib/audioRecorder.ts:99-100 | a quiet tick stops exactly when the silence since the last sound reaches the duration |
| VoiceRecording.VoiceRecorder.constructor | lib/audioRecorder.ts:46-61 | a new recorder has resolved options, no MediaRecorder, no chunks, no callback and no detector |
| VoiceRecording.VoiceRecorder.Start | lib/audioRecorder.ts:63-81 | start leaves a recording MediaRecorder, an analyser and an empty chunk list |
| VoiceRecording.VoiceRecorder.OnDataAvailable | lib/audioRecorder.ts:77-79 | only non-empty blobs are appended to the chunks |
| VoiceRecording.VoiceRecorder.Stop | lib/audioRecorder.ts:83-88 | the callback is always stored; with no recorder or an inactive one nothing else changes, otherwise the stop handler is set and recording stops |
| VoiceRecording.VoiceRecorder.StartVad | lib/audioRecorder.ts:91-93 | the detector is armed with the callback and the current time |
| VoiceRecording.VoiceRecorder.CancelVad | lib/audioRecorder.ts:107-112 | the detector is disarmed and nothing else changes |
| VoiceRecording.VoiceRecorder.VadTick | lib/audioRecorder.ts:94-104 | without an analyser a tick does nothing; otherwise it follows `Tick`, and when it fires it disarms the detector and stops with the detector's callback; the analyser, the options, the chunks and the callback are never changed, and the recorder and stop handler change only when an active recorder is stopped |
| VoiceRecording.VoiceRecorder.ProcessChunks | lib/audioRecorder.ts:114-127 | the detector is disarmed, and the recording is handed on exactly when there are chunks and a callback; no other field changes |
| Rag.Paragraphs | lib/rag.ts:9 | the text splits at every run of two or more newlines into at least one piece, none holding a blank line; text without a blank line is one piece |
| Rag.ChunkText | lib/rag.ts:7-20 | the paragraph loop (flush a non-empty buffer before it would pass 600 characters, join with a blank line, push the trimmed buffer unless blank) computes `Chunks(text)` |
| Rag.FoldParagraphs | lib/rag.ts:11-17 | the loop over the paragraphs ends in the state of the fold over all of them |
| Rag.PushParagraph | lib/rag.ts:12-16 | one iteration of the loop is one `Step` of the fold |
| Rag.FoldGroups | lib/rag.ts:11-17 | after k paragraphs the pushed chunks are the trimmed gluings of consecutive paragraph groups, the buffer glues the open group, and the groups concatenate to the first k paragraphs in order |
| Rag.ChunkOrder | lib/rag.ts:7-20 | the chunks are the trimmed gluings of groups that concatenate to exactly the paragraphs, in order; a blank last group yields no chunk |
| Rag.ChunksTrimmed | lib/rag.ts:14-18 | every chunk is already trimmed |
| Rag.FoldSizes | lib/rag.ts:12-16 | the buffer is one paragraph or at most 602 characters, and every pushed chunk is short or one trimmed paragraph |
| Rag.ChunkSizes | lib/rag.ts:7-20 | a chunk longer than 602 characters is a single trimmed paragraph |
| Rag.BlankChunkPossible | lib/rag.ts:12-14 | only the final buffer is checked for blankness: a blank first paragraph followed by an overflowing one is pushed as an empty chunk |
| Rag.ShortTextOneChunk | lib/rag.ts:7-20 | a non-blank text without blank lines is one chunk, itself trimmed |
| Rag.Terms | lib/rag.ts:27-30 | the terms are lower-cased, whitespace-free words longer than two characters |
| Rag.CountFoundPositive | lib/rag.ts:33-40 | a chunk scores above zero exactly when its lower-cased text contains one of the terms |
| Rag.ScoreChunk | lib/rag.ts:34-38 | the counting loop computes the number of terms, with repetition, contained in the lower-cased chunk |
| Rag.ScoreChunks | lib/rag.ts:33-40 | the map over the chunks scores each chunk in place, in order |
| Rag.TopSpec | lib/rag.ts:42-45 | at most `max` entries, each from the input with a positive score, in non-increasing score order |
| Rag.TopIsTop | lib/rag.ts:42-45 | a positive entry left out means the selection is full and every selected entry scores at least as high |
| Rag.TopStable | lib/rag.ts:44-45 | ties keep document order: the selected entries of one score are a prefix of that score's entries |
| Rag.SearchSource | lib/rag.ts:22-50 | with the file's content as a parameter (None when it cannot be read), the search computes `SearchSpec` |
| Rag.SelectedHasTerm | lib/rag.ts:42-46 | every selected chunk is one of the chunks and contains a query term |
| Rag.SearchSpecBounds | lib/rag.ts:22-50 | at most 3 chunks, each a chunk of the text containing a query term; an unreadable file or a query without terms gives none |
| Rag.RouteSpec | app/api/rag/route.ts:23-64 | a missing, non-string or empty query is exactly the 400 case; an unparseable body or unreadable file gives no chunks; otherwise at most 5 chunks |
| Rag.RouteAgreesWithLibrary | app/api/rag/route.ts:38-57 | without the early return on an empty term list the route still agrees with the library: its first 3 chunks are the library's answer |
| Rag.NoPositive | app/api/rag/route.ts:44-54 | with no terms every chunk scores zero and none is selected |
| Fsrs.ModeName | lib/fsrs.ts:39-50 | a drill mode's stored name is never empty |
| Fsrs.ElapsedDays | lib/fsrs.ts:28-30 | the elapsed days are the whole days since the last review, rounded down |
| Fsrs.ToCard | lib/fsrs.ts:23-37 | the scheduler sees a never-reviewed card as new and every other card as in review, with the whole days since its last review and no scheduled days |
| Fsrs.FromCard | lib/fsrs.ts:39-51 | the state keeps the given card, learner and mode, and a card without a last review gets the current time |
| Fsrs.CardRoundTrip | lib/fsrs.ts:23-51 | converting a state to a card and back, under the same identity, gives the state back |
| Fsrs.EmptyState | lib/fsrs.ts:53-56 | a new state has the given identity and the library's empty card's reps and due date |
| Fsrs.Label | lib/fsrs.ts:9-14 | every rating is labelled Again, Hard, Good or Easy |
| Fsrs.RatingMap | lib/fsrs.ts:9-64 | the rating map is a bijection, a rating's label names its grade, 1 is Again and 4 is Easy |
| Fsrs.Schedule | lib/fsrs.ts:66-86 | the scheduled state keeps the card's identity and takes the scheduler's card for the rating; when there is none the state is returned unchanged |
| Fsrs.DaysUntilDue | lib/fsrs.ts:92-96 | the time left is rounded up to whole days, and the result is at most 0 exactly when the card is due |
| Fsrs.DueCardsMembers | lib/fsrs.ts:98-100 | the due cards are exactly the cards that are due |
| Fsrs.DueCardsAppend | lib/fsrs.ts:98-100 | filtering a concatenation filters each part, so the order is kept |
| Fsrs.DueCardsOne | lib/fsrs.ts:98-100 | a single card is kept exactly when it is due |
| Fsrs.Status | lib/fsrs.ts:102-107 | the status is one of new, learning, review, relearning and due |
| Fsrs.StatusCases | lib/fsrs.ts:102-107 | each status holds exactly under its condition, checked in order: no reps; lapses with fewer than 3 reps; stability below 1; due; otherwise review |
| Fsrs.Mastery | lib/fsrs.ts:109-112 | the mastery level is between 0 and 3 |
| Fsrs.MasteryLevels | lib/fsrs.ts:102-112 | level 0 exactly for unreviewed cards, 3 exactly for stable cards not yet due, and a card that falls due drops below its level before the due date |
| ProgressStorage.ToStored | lib/storage.ts:44-50 | the stored form keeps the card, learner and mode |
| ProgressStorage.FromStored | lib/storage.ts:52-58 | reading a stored form keeps the card, learner and mode |
| ProgressStorage.StoredRoundTrip | lib/storage.ts:44-58 | storing and reading back gives the state back, and the other way round |
| ProgressStorage.CardKey | lib/storage.ts:63 | the key is the card id, ":" and the mode |
| ProgressStorage.CardKeyInjective | lib/storage.ts:63 | with card ids free of ":", two keys are equal only for equal ids and modes |
| ProgressStorage.Appended | lib/storage.ts:104-112 | the record is appended, and the oldest record is dropped once there are more than 100 |
| ProgressStorage.AppendedKeepsLatest | lib/storage.ts:104-112 | the new record is last, the rest are the latest records in order, and a history of at most 100 stays at most 100 long |
| ProgressStorage.Overlay | lib/storage.ts:135 | each field given in the patch wins, every other field keeps its value |
| ProgressStorage.AsPatch | lib/storage.ts:136 | a written preference object sets every field |
| ProgressStorage.AsPatchReadsBack | lib/storage.ts:136-150 | written preferences override every default when read back |
| ProgressStorage.OverlayLaws | lib/storage.ts:135-150 | an empty patch changes nothing, and two patches in turn are one combined patch |
| ProgressStorage.MarkChapter | lib/storage.ts:157-163 | after marking, the list holds the chapter and exactly the chapters it held before |
| ProgressStorage.MarkChapterLaws | lib/storage.ts:157-163 | marking twice is marking once, and marking never introduces a duplicate |
| ProgressStorage.DrillLevelUnlocked | lib/storage.ts:35-37 | every drill level is unlocked |
| ProgressStorage.BrowserStore.constructor | lib/storage.ts:3-9 | a new store has nothing under any key |
| ProgressStorage.BrowserStore.CardStates | lib/storage.ts:75-84 | on the server, and when nothing is stored, the card states are empty; otherwise they are the stored object |
| ProgressStorage.BrowserStore.GetCardState | lib/storage.ts:68-73 | there is a state exactly when one is stored under the card's key, and it is the stored one |
| ProgressStorage.BrowserStore.AllCardStates | lib/storage.ts:86-89 | every stored state is read back, one per key, in order |
| ProgressStorage.BrowserStore.SaveCardState | lib/storage.ts:60-66 | in the browser the state is written under its key and every other key is kept; on the server nothing changes |
| ProgressStorage.BrowserStore.ClearCardStates | lib/storage.ts:91-93 | in the browser the card states are removed; on the server the call raises; no other key changes |
| ProgressStorage.BrowserStore.SessionHistory | lib/storage.ts:114-123 | on the server, and when nothing is stored, the history is empty; otherwise it is the stored list |
| ProgressStorage.BrowserStore.SaveSessionRecord | lib/storage.ts:104-112 | in the browser the history becomes the appended one; on the server the write raises and nothing changes |
| ProgressStorage.BrowserStore.UserPreferences | lib/storage.ts:139-155 | the defaults on the server or without stored data, otherwise the stored fields over the defaults |
| ProgressStorage.BrowserStore.SaveUserPreferences | lib/storage.ts:132-137 | in the browser the patch over the current preferences is written in full; on the server nothing changes |
| ProgressStorage.BrowserStore.CompletedChapters | lib/storage.ts:165-173 | on the server, and when nothing is stored, there are no completed chapters; otherwise the stored list |
| ProgressStorage.BrowserStore.MarkChapterCompleted | lib/storage.ts:157-163 | in the browser an absent chapter is appended and written, and a present one writes nothing; on the server the write raises |
| ProgressStorage.BrowserStore.DrillLevelProgress | lib/storage.ts:16-26 | on the server, and when nothing is stored, no level is completed; otherwise the stored flags |
| ProgressStorage.BrowserStore.MarkDrillLevelCompleted | lib/storage.ts:28-33 | in the browser the level's flag is set to true and the others are kept; on the server nothing changes |
| ProgressStorage.BrowserStore.ClearAllData | lib/storage.ts:179-183 | in the browser every key is removed; on the server the call raises and nothing changes |
| ProgressStorage.SaveThenGet | lib/storage.ts:60-73 | a saved card state reads back under its own card and mode, and every other key reads as before |
| ProgressStorage.SavedPreferencesReadBack | lib/storage.ts:132-150 | saved preferences read back as the patch over the preferences read before |
| ProgressStorage.MarkedLevelIsSet | lib/storage.ts:16-33 | a marked drill level reads as true, and the other levels keep their flags |
| DrillUtils.AssignSpec | lib/drillUtils.ts:7 | the assigned ids map to the unit; every other key keeps its entry |
| DrillUtils.BuildUnitMap | lib/drillUtils.ts:5-8 | the nested loops build exactly the phoneme-to-unit map |
| DrillUtils.UnitMapDomain | lib/drillUtils.ts:5-8 | a phoneme is mapped exactly when some unit lists it |
| DrillUtils.UnitMapLast | lib/drillUtils.ts:5-8 | a mapped phoneme maps to the id of the last unit listing it |
| DrillUtils.UnitMapSpec | lib/drillUtils.ts:5-8 | a phoneme is mapped exactly when some unit lists it, and then to the last unit that does |
| DrillUtils.PhonemeUnit | lib/drillUtils.ts:11-13 | there is no unit exactly when no unit lists the phoneme; otherwise it is the last listing unit's id |
| DrillUtils.FindUnit | lib/drillUtils.ts:22 | the unit found has the id; none is found only when no unit has it |
| DrillUtils.SameGroupSpec | lib/drillUtils.ts:16-25 | the siblings are phonemes of the list with another id; an unlisted phoneme or an empty unit id has none; with distinct unit ids, a phoneme is a sibling exactly when the last unit listing the given phoneme lists it |
| DrillUtils.RandomIndex | lib/drillUtils.ts:52 | a draw in [0, 1) gives an index below the bound |
| DrillUtils.Shuffle | lib/drillUtils.ts:49-56 | Fisher-Yates on a copy gives a permutation of the input |
| DrillUtils.Scramble | lib/drillUtils.ts:36-45 | the random-comparator sort gives some permutation of the input |
| DrillUtils.SliceTo | lib/drillUtils.ts:37-87 | slicing to an end keeps a prefix of that length, counting a negative end back from the length and clamping to the list |
| DrillUtils.TopUpAdds | lib/drillUtils.ts:39-44 | topping up keeps the siblings as a prefix, never grows past the need, and adds only phonemes of the rest whose ids were not yet picked |
| DrillUtils.TopUpComplete | lib/drillUtils.ts:41-44 | topping up stops short of the need only when every other phoneme's id is picked |
| DrillUtils.TopUpSpec | lib/drillUtils.ts:39-86 | both halves of the top-up's contract |
| DrillUtils.TopUpPicks | lib/drillUtils.ts:41-86 | the loop gives exactly the topped-up picks |
| DrillUtils.OptionsFromPicks | lib/drillUtils.ts:37-87 | the correct phoneme with well-formed picks, in any order, is a well-formed option list |
| DrillUtils.PoolMembers | lib/drillUtils.ts:39-81 | every phoneme of the pool is a phoneme of the list with another id than the correct one |
| DrillUtils.SameGroupOptions | lib/drillUtils.ts:28-47 | the correct phoneme appears once, every distractor is a listed phoneme with another id, and for a positive count there are at most `count` options; with enough siblings, exactly `count` options whose distractors are all siblings |
| DrillUtils.RandomOptions | lib/drillUtils.ts:59-67 | the correct phoneme appears once and every other option is a phoneme with another id, each used no more often than it occurs among those phonemes; for a positive count there are min(count - 1, number of such phonemes) + 1 options |
| DrillUtils.RandomPicks | lib/drillUtils.ts:64-65 | the picks are a sub-multiset of the phonemes with another id, min(count - 1, their number) of them for a positive count |
| DrillUtils.SameGroupRomanOptions | lib/drillUtils.ts:70-88 | the options are well formed and are a permutation of the correct phoneme with the first siblings, or with the topped-up picks |
| DrillPage.NeedScore | app/drill/page.tsx:54-66 | a phoneme without a state in the mode has need 5 |
| DrillPage.StateNeedOrder | app/drill/page.tsx:62-65 | the need grows with difficulty and lapses and falls with stability, jumps by more than 10.5 below stability 1, stays within (d + 3l, d + 3l + 13], and a recorded card at the default difficulty or above without negative lapses ranks above an unseen one |
| DrillPage.ReciprocalFalls | app/drill/page.tsx:65 | the term 5 / (1 + s) falls as stability grows and stays positive |
| DrillPage.MaxNeed | app/drill/page.tsx:91 | the maximum is the need in one of the modes and at least the need in every mode |
| DrillPage.NeedCombined | app/drill/page.tsx:86-92 | the combined need is reached in one of the nine modes and is at least the need in each |
| DrillPage.UnseenNeed | app/drill/page.tsx:61-92 | a phoneme without any state in the drilled modes has need 5 |
| DrillPage.TopTier | app/drill/page.tsx:80 | the tier size is the least k with 10k ≥ 7n, and at most n |
| DrillPage.TierSplit | app/drill/page.tsx:79-82 | shuffling the first k of a sorted list and the rest separately gives a permutation whose first k are those of the list, each with need at least that of any later element |
| DrillPage.SortedHead | app/drill/page.tsx:106-107 | the head of a sorted copy holds elements of the input in need order, and anything left out is no needier than what was kept |
| DrillPage.BuildWeightedDeck | app/drill/page.tsx:69-83 | the deck is a permutation of the due phonemes whose first ⌈0.7 n⌉ are the neediest, each at least as needy as every later one |
| DrillPage.WeakPhonemesSpec | app/drill/page.tsx:94-108 | the weak phonemes are listed phonemes with need above 6, in non-increasing need, at most `limit` of them; a weak phoneme left out means the list is full and it is no needier than any listed one |
| DrillPage.UnseenNotWeak | app/drill/page.tsx:61-105 | a phoneme never drilled in the mode is never weak |
| LessonProgress.WithDefaults | lib/lessonProgress.ts:12-20 | each stored field wins and each missing field takes its empty default |
| LessonProgress.AsPatch | lib/lessonProgress.ts:34 | a written progress object sets both fields |
| LessonProgress.AsPatchReadsBack | lib/lessonProgress.ts:12-34 | written progress reads back as itself |
| LessonProgress.AddOnce | lib/lessonProgress.ts:29-39 | afterwards the list holds the item and exactly what it held before; a present item leaves it unchanged, an absent one is appended |
| LessonProgress.AddOnceLaws | lib/lessonProgress.ts:29-39 | adding twice is adding once, and adding never introduces a duplicate |
| LessonProgress.PassPhonemeSpec | lib/lessonProgress.ts:26-35 | the unit's list gains the phoneme once, other units keep their lists, and the unit is complete afterwards exactly when it was before or a total is given and reached; other units' completion is unchanged |
| LessonProgress.PassPhonemeIdempotent | lib/lessonProgress.ts:26-35 | passing the same phoneme twice is passing it once |
| LessonProgress.IndexOf | lib/lessonProgress.ts:53 | the position of the first occurrence, or -1 exactly when the unit is not listed |
| LessonProgress.UnitUnlockedSpec | lib/lessonProgress.ts:52-56 | the first unit and unlisted units are open; any other unit is open exactly when the unit before its first occurrence is complete |
| LessonProgress.LessonStore.constructor | lib/lessonProgress.ts:1 | a new store has nothing stored |
| LessonProgress.LessonStore.Load | lib/lessonProgress.ts:8-20 | the empty default on the server or without data; otherwise the stored fields over the defaults |
| LessonProgress.LessonStore.MarkPhonemePassed | lib/lessonProgress.ts:26-35 | in the browser the stored progress becomes the passed-phoneme progress; on the server the write raises and nothing changes |
| LessonProgress.LessonStore.MarkUnitComplete | lib/lessonProgress.ts:37-41 | in the browser the unit is added once to the completed units and the phonemes are kept; on the server the write raises and nothing changes |
| LessonProgress.LessonStore.CompletedPhonemesForUnit | lib/lessonProgress.ts:43-46 | the set holds exactly the phonemes listed for the unit, none for an unknown unit |
| LessonProgress.MarkUnitIdempotent | lib/lessonProgress.ts:37-41 | completing a unit twice is completing it once, and it is complete afterwards |
| ZoneProgress.ZoneOf | lib/zoneProgress.ts:12-55 | a zone found under a key is the zone of that name |
| ZoneProgress.ZoneNames | lib/zoneProgress.ts:12-28 | each zone is found under its own name and is listed among the keys |
| ZoneProgress.ZonesOrdered | lib/zoneProgress.ts:12-28 | every prerequisite has a strictly smaller order than the zone that needs it |
| ZoneProgress.ChainDescends | lib/zoneProgress.ts:12-28 | along a prerequisite chain the order strictly falls |
| ZoneProgress.NoCycle | lib/zoneProgress.ts:11-28 | the prerequisite graph is acyclic: no chain returns to the zone it starts from |
| ZoneProgress.RootZonesOpen | lib/zoneProgress.ts:16-59 | compression, phonetics and words are always open |
| ZoneProgress.UnlockedMonotone | lib/zoneProgress.ts:54-59 | completing more zones never locks a zone |
| ZoneProgress.KeyRanks | lib/zoneProgress.ts:12-28 | the `order` of each zone is its position among the keys, so ordering by it is key order |
| ZoneProgress.UnlockedZones | lib/zoneProgress.ts:82-84 | the listed zones are exactly the configured zones whose prerequisites are all completed, in key order, each once |
| ZoneProgress.TutorFollowsCompletion | lib/zoneProgress.ts:62-68 | outside phonetics a tutor is open exactly when its zone is completed: marking the zone opens it and completing more zones keeps it open |
| ZoneProgress.PhoneticsTutorNeedsAllUnits | lib/zoneProgress.ts:62-66 | the phonetics tutor's unit count is the same as every one of the nine units being complete, for a completed list without repeats that holds only unit ids |
| ZoneProgress.ServerTutorsLocked | lib/zoneProgress.ts:62-68 | on the server no tutor is open |
| ZoneProgress.ZoneStore.constructor | lib/zoneProgress.ts:9 | a new store has nothing stored |
| ZoneProgress.ZoneStore.Completed | lib/zoneProgress.ts:38-80 | no zones on the server or without data; otherwise the stored list |
| ZoneProgress.ZoneStore.GetUnlockedZones | lib/zoneProgress.ts:82-84 | the listed zones are exactly the configured zones the learner can open, in key order, each once |
| ZoneProgress.ZoneStore.MarkZoneComplete | lib/zoneProgress.ts:48-76 | in the browser an absent zone is appended and saved, and afterwards the zone is completed along with exactly the zones before; on the server or for a completed zone nothing changes |
| ZoneProgress.MarkZoneLaws | lib/zoneProgress.ts:54-76 | completing a zone twice is completing it once, and it keeps every open zone open |
| ReferenceDrawings.DrawingStore.constructor | lib/referenceDrawings.ts:10 | a new store has nothing stored |
| ReferenceDrawings.DrawingStore.Drawings | lib/referenceDrawings.ts:14-22 | no drawings on the server or without data; otherwise the stored object, each character once |
| ReferenceDrawings.DrawingStore.GetReference | lib/referenceDrawings.ts:39-41 | there is an image exactly when one is stored under the character, and it is the stored one |
| ReferenceDrawings.DrawingStore.SetReference | lib/referenceDrawings.ts:24-37 | in the browser the image is stored under the character and reads back, and it counts as a reference exactly when non-empty; every other character reads as before; on the server nothing changes |
| ReferenceDrawings.SetThenGet | lib/referenceDrawings.ts:33-41 | a set image reads back under its character, and every other character reads as before |
| TutorPreferences.Validate | lib/tutorPreferences.ts:60-73 | each field is kept only when it is one of the listed languages or voices, else it takes its default, independently of the other; the result is always valid |
| TutorPreferences.Overlay | lib/tutorPreferences.ts:81 | each field given in the patch wins, the other keeps its current value |
| TutorPreferences.AsPatch | lib/tutorPreferences.ts:82 | a written preference object sets both fields |
| TutorPreferences.ValidateKeepsValid | lib/tutorPreferences.ts:60-82 | valid preferences written out read back unchanged |
| TutorPreferences.PreferenceStore.constructor | lib/tutorPreferences.ts:54 | a new store has nothing stored |
| TutorPreferences.PreferenceStore.Get | lib/tutorPreferences.ts:60-77 | the result is always valid: the defaults on the server or without data, otherwise the validated stored object |
| TutorPreferences.PreferenceStore.Save | lib/tutorPreferences.ts:79-83 | in the browser the patch over the current preferences is written; on the server nothing changes |
| TutorPreferences.SaveReadsBack | lib/tutorPreferences.ts:60-83 | after a save, a listed value given in the patch reads back, an omitted field keeps its value, and an unlisted value reads back as that field's default |
| TutorStorage.Latest | lib/tutor.ts:43 | the latest 40 messages in order, or all of them when there are fewer |
| TutorStorage.LatestLaws | lib/tutor.ts:43 | keeping the latest twice is keeping them once, a short history is kept whole, and the newest message survives |
| TutorStorage.Overlay | lib/tutor.ts:50-58 | each field given in the patch wins, every other field keeps its value |
| TutorStorage.AsPatch | lib/tutor.ts:59 | a written progress object sets every field |
| TutorStorage.ProgressReadsBack | lib/tutor.ts:46-60 | written progress reads back as itself, a saved patch reads back over what was read before, and an empty patch changes nothing |
| TutorStorage.TutorStore.constructor | lib/tutor.ts:28-29 | a new store has nothing stored |
| TutorStorage.TutorStore.Messages | lib/tutor.ts:31-39 | no messages on the server or without data; otherwise the stored list |
| TutorStorage.TutorStore.SaveMessages | lib/tutor.ts:41-44 | in the browser only the latest 40 messages are written; on the server nothing changes; the progress is untouched |
| TutorStorage.TutorStore.GetProgress | lib/tutor.ts:46-54 | the defaults on the server or without data; otherwise the stored fields over the defaults |
| TutorStorage.TutorStore.SaveProgress | lib/tutor.ts:56-60 | in the browser the patch over the current progress is written in full and reads back; on the server nothing changes; the messages are untouched |

## Left out

- File, database, network and browser I/O: sqlite rows, ChromaDB, the Chutes embedding and chat services, HTTP routing, `MediaRecorder`, `AudioContext`, `decodeAudioData`, `btoa` and canvas drawing. Each value they produce is a parameter of the model.
- Model calls: Whisper, Parler-TTS, the handwriting CNN and the LLM reply of `assess_conceptual` (tutor/assessment/conceptual.py:48-70) are parameters. The reply is modelled as `Replied`, `NoKey` or `CallFailed`.
- `embed` and `build_index` in rag/build_sanskrit_rag.py call remote clients only, so they are not modelled.
- `load_vakyapadiya` and `load_abhinavagupta` read files and build no chunk shape beyond those modelled, so they are not modelled.
- Nothing checks the shapes of JSON input. A stored value of the wrong shape is modelled as `Corrupt`, like text that does not parse.
- localStorage quota errors, and JavaScript's lookup of inherited property names on plain objects, are not modelled.
- Floating point: floats are exact `real`s. `Math.ceil(n * 0.7)` is modelled as `(7n + 9) / 10`, and IEEE rounding is left out.
- Python's `round(x, 2)` is round-half-even on exact values.
- Python's `hash`, used for fallback Whitney ids, is a parameter.
- Strings are sequences of code points. UTF-16 surrogate pairs are not modelled.
- Regular expressions are written out as explicit scans. Unicode `\w` is approximated by `RagBuild.IsWordChar`.
- `difflib.SequenceMatcher` is not modelled. Its opcode list is a parameter, constrained to tile both strings with equal `equal` blocks.
- sabdakrida/assessment/mode1.py imports `phoneme_diff_with_positions`, `get_syllable_at`, `record_pronunciation_score` and `get_recent_scores`, but no module defines them. Positions and syllable lookup are parameters. The recorded score is a write to an unseen table, so it is left out.
- Clocks, `uuid4` and `random.choice` are parameters. `Math.random` draws are a sequence of unit draws, or a nondeterministic permutation for `.sort(() => Math.random() - 0.5)`.
- Fsrs.Schedule: the `ts-fsrs` scheduler (`repeat`, `createEmptyCard`) is a parameter, so only the guard on a missing result and the state conversion are stated.
- Fsrs.FromCard: `CardState.stability` is a plain `real`, as in the source, so the conversion copies any value. The non-negative `DrillPage.Stability` type is used only where the drill page reads a stored card.
- `RATING_COLORS`, `CURRICULUM` and the lesson text are static display data, so they are not modelled.
- The ISO date text in lib/storage.ts is an abstract date value. Its textual format is not modelled.
- The JSON decoding of sqlite rows in tutor/profile.py:82-99 is not modelled. Profiles are kept as values.
- DrillUtils.SameGroupOptions, DrillUtils.RandomOptions, DrillUtils.SameGroupRomanOptions: "at most `count` options" is stated only for a positive count. For a count of 0 or less, JavaScript's `slice(0, count)` keeps all but the last `-count` elements, and the contract states that instead.
- `getMixedOptions` is imported by app/drill/page.tsx:20 but is not defined in lib/drillUtils.ts, so it is not part of this model.
- DrillUtils.Shuffle: the page's own `shuffle` (app/drill/page.tsx:44-51) is the same code as lib/drillUtils.ts:49-56, so one member models both.
- Units and phoneme lists (units.json, phonemes.json) are parameters.
- Phonemes keep only `id`, `devanagari` and `iast`. Their other fields are not read by the modelled code.
- Derivation.BuildDerivationTree: the recursion carries a depth bound (`fuel`). None stands for a recursion that has not returned within that depth, which covers the source's non-termination on cycles.
- `getDhatuById` in lib/derivation.ts is a plain lookup and is not modelled separately.
- DrawRecognize: the canvas is fixed at the source's 64×64 pixels (`W` and `N` in draw_recognize.dfy), so other canvas sizes are not modelled.
- DhatuDash: the prose of explanations and prompts is modelled only where a contract depends on it.
- Text.IsSpace and Text.LowerChar approximate the runtime's character tables. IsSpace leaves out U+001C–U+001F and U+0085, which Python's `isspace` accepts, and U+FEFF, which JavaScript's `\s` accepts. LowerChar lower-cases only ASCII, Latin-1, Latin Extended-A and Latin Extended Additional letters; cased letters of other blocks (Greek, Cyrillic and the rest) are left unchanged.
- PhonemeDiff.NormalizeIast: the NFC normalisation of sabdakrida/asr/phoneme_diff.py:17 is not modelled. The texts are taken to be already composed, so a decomposed `t` followed by U+0323 stays two characters, where the source composes it to `ṭ`.
- GamesRouter.SerializeMeta and GamesRouter.EntryJson: the session's `tree` set is listed in increasing order. The source lists it in Python's unspecified set iteration order (sabdakrida/routers/games.py:63), so the model fixes one order the source leaves open. The round trip through the listing holds for any order that lists the set.
- TutorConductor.SubmitSession: the pronunciation route's `pronunciation_session(audio_path, target_text, "tutor")` (tutor/assessment/pronunciation.py:31-37) is `Mode1.PronunciationSession`, and its result is the `session` parameter. The weakness-count bump it makes for the learner "tutor" (sabdakrida/assessment/mode1.py:93) is stated by `Mode1.PronunciationSession` and `WeaknessProfile.ErrorStore.UpdateUserProfile`, and is not part of the submission's store.
- Concurrency: the stores and profiles are modelled as single-threaded, so concurrent requests on one user row are not modelled.

## Findings

| source | as written | input that shows it | evidently intended | confidence | as-written member | corrected member |
|---|---|---|---|---|---|---|
| tutor/conductor.py:112 | `submit_session` unpacks three values from `assess_grammar_production`, which returns a pair, so the grammar route raises `ValueError` | any session spec whose assessment type is "production" and whose pass criteria do not require pronunciation | unpack the pair and use empty meta | not executed | TutorConductor.GrammarPathRaises | TutorConductor.SubmitRoutes |
| tutor/assessment/conceptual.py:72-80 | the Y count covers every non-empty reply line, not only the lines paired with a criterion | criteria ["uses sandhi", "names the root"] and the reply "N\nN\nY\nY" pass with ratio 1.0 | count only the lines paired with a criterion, so the ratio stays within [0, 1] | not executed | TutorConceptual.StrayLinesPassAsWritten | TutorConceptual.ConceptualCorrectedRatio |
| games/user_profile.py:156 | `row["avg_recent_score"] or 0.5` replaces a stored 0.0 by the default | a profile saved with average 0.0 reloads with 0.5 | fall back to 0.5 only when the column is missing | not executed | GameProfile.ZeroAverageReloadsAsDefault | GameProfile.SaveLoadRoundTripCorrected |
| lib/sandhi.ts:37 | visarga sandhi replaces only the final ḥ/h by "o", so the stem vowel "a" stays | "rāmaḥ" + "gacchati" gives "rāmao gacchati" | replace the final "aḥ" by "o": "rāmo gacchati" | not executed | Sandhi.VisargaKeepsStemA | Sandhi.VisargaExample |
| lib/derivation.ts:26 | `buildDerivationTree` recurses into every found child with no visited set | a node whose `derivesTo` lists its own id never returns | skip ids already on the current path | not executed | Derivation.CycleNeverBuilds | Derivation.ChildrenGuardedSpec |
