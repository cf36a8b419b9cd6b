/**
 * Dhātu Dash: starting from a verbal root, the player names derived forms
 * one at a time; each correct, new form grows the session's tree. The
 * engine keeps the session object inside the challenge's meta, and evaluation
 * updates it in place.
 */
module DhatuDash {
  import opened Wrappers
  import opened Text
  import opened Sorting
  import opened Tables
  import opened JsonValues
  import opened GameProfile
  import opened GameEngine

  /** `_normalize_iast`: strip, then lower-case; diacritics are kept. */
  function NormalizeIast(s: string): (r: string)
    ensures r == StripLower(s)
  {
    StripLower(s)
  }

  /** Normalising twice is normalising once. */
  lemma NormalizeIastIdempotent(s: string)
    ensures NormalizeIast(NormalizeIast(s)) == NormalizeIast(s)
  {
    StripLowerIdempotent(s);
  }

  datatype DerivedForm = DerivedForm(form: Option<string>, suffix: Option<string>, meaning: Option<string>)

  /** One entry of the root list. */
  datatype Dhatu = Dhatu(
    id: string, iast: string, meaning: Option<string>, devanagari: Option<string>,
    derivedForms: seq<DerivedForm>, derivesTo: seq<string>)

  // ---------------------------------------------------------------------------
  // Valid forms of a root

  /** The normalised forms of a list. */
  function NormSet(forms: seq<string>): set<string>
  {
    set f | f in forms :: NormalizeIast(f)
  }

  /** The first loop of `_build_valid_forms`: each non-empty derived form not yet listed is appended. */
  function WithDerived(forms: seq<string>, dfs: seq<DerivedForm>): seq<string>
  {
    if dfs == [] then forms
    else
      var acc := WithDerived(forms, dfs[..|dfs| - 1]);
      var f := dfs[|dfs| - 1].form.GetOr("");
      if f != "" && f !in acc then acc + [f] else acc
  }

  /** The second loop: a `derivesTo` name is appended when its normal form is new and non-empty. */
  function WithNames(forms: seq<string>, names: seq<string>): seq<string>
  {
    if names == [] then forms
    else
      var acc := WithNames(forms, names[..|names| - 1]);
      var name := names[|names| - 1];
      var norm := NormalizeIast(name);
      if norm != "" && norm !in NormSet(acc) then acc + [name] else acc
  }

  function ValidForms(d: Dhatu): seq<string>
  {
    WithNames(WithDerived([d.iast], d.derivedForms), d.derivesTo)
  }

  predicate NoDuplicates(s: seq<string>)
  {
    forall i, j :: 0 <= i < j < |s| ==> s[i] != s[j]
  }

  lemma {:induction false} WithDerivedSpec(forms: seq<string>, dfs: seq<DerivedForm>)
    requires NoDuplicates(forms)
    ensures var r := WithDerived(forms, dfs);
      && NoDuplicates(r) && |forms| <= |r| && r[..|forms|] == forms
      && (forall i :: 0 <= i < |dfs| && dfs[i].form.GetOr("") != "" ==> dfs[i].form.value in r)
      && (forall x :: x in r ==> x in forms || exists i :: 0 <= i < |dfs| && dfs[i].form == Some(x))
  {
    if dfs != [] {
      var init := dfs[..|dfs| - 1];
      WithDerivedSpec(forms, init);
      assert forall i :: 0 <= i < |init| ==> init[i] == dfs[i];
    }
  }

  lemma NormSetAppend(forms: seq<string>, name: string)
    ensures NormSet(forms + [name]) == NormSet(forms) + {NormalizeIast(name)}
  {
    assert forall f :: f in forms + [name] <==> f in forms || f == name;
  }

  lemma {:induction false} WithNamesShape(forms: seq<string>, names: seq<string>)
    requires NoDuplicates(forms)
    ensures var r := WithNames(forms, names);
      && NoDuplicates(r) && |forms| <= |r| && r[..|forms|] == forms
      && (forall x :: x in r ==> x in forms || x in names)
  {
    if names != [] {
      var init := names[..|names| - 1];
      WithNamesShape(forms, init);
      var acc := WithNames(forms, init);
      var name := names[|names| - 1];
      if NormalizeIast(name) != "" && NormalizeIast(name) !in NormSet(acc) {
        assert name !in acc;
      }
    }
  }

  lemma {:induction false} WithNamesCovers(forms: seq<string>, names: seq<string>)
    ensures var r := WithNames(forms, names);
      forall i :: 0 <= i < |names| && NormalizeIast(names[i]) != "" ==> NormalizeIast(names[i]) in NormSet(r)
  {
    if names != [] {
      var init := names[..|names| - 1];
      WithNamesCovers(forms, init);
      WithNamesStep(forms, names);
      CoveredStep(init, names, NormSet(WithNames(forms, init)), NormSet(WithNames(forms, names)));
    }
  }

  /** Coverage of all but the last name, carried into a larger set that covers the last one too. */
  lemma CoveredStep(init: seq<string>, names: seq<string>, before: set<string>, after: set<string>)
    requires names != [] && init == names[..|names| - 1] && before <= after
    requires forall i :: 0 <= i < |init| && NormalizeIast(init[i]) != "" ==> NormalizeIast(init[i]) in before
    requires NormalizeIast(names[|names| - 1]) != "" ==> NormalizeIast(names[|names| - 1]) in after
    ensures forall i :: 0 <= i < |names| && NormalizeIast(names[i]) != "" ==> NormalizeIast(names[i]) in after
  {
    forall i | 0 <= i < |names| && NormalizeIast(names[i]) != ""
      ensures NormalizeIast(names[i]) in after
    {
      if i < |init| {
        assert init[i] == names[i];
      }
    }
  }

  /** One step of the name loop keeps every normal form and adds the new name's. */
  lemma WithNamesStep(forms: seq<string>, names: seq<string>)
    requires names != []
    ensures var acc := WithNames(forms, names[..|names| - 1]);
      var r := WithNames(forms, names);
      var norm := NormalizeIast(names[|names| - 1]);
      NormSet(acc) <= NormSet(r) && (norm != "" ==> norm in NormSet(r))
  {
    var acc := WithNames(forms, names[..|names| - 1]);
    var name := names[|names| - 1];
    if NormalizeIast(name) != "" && NormalizeIast(name) !in NormSet(acc) {
      NormSetAppend(acc, name);
    }
  }

  /**
   * The root's own form comes first, the list has no duplicates, every
   * non-empty derived form is in it, every `derivesTo` name is represented by
   * its normal form, and nothing else is added.
   */
  lemma ValidFormsSpec(d: Dhatu)
    ensures var r := ValidForms(d);
      && r != [] && r[0] == d.iast && NoDuplicates(r)
      && (forall i :: 0 <= i < |d.derivedForms| && d.derivedForms[i].form.GetOr("") != "" ==> d.derivedForms[i].form.value in r)
      && (forall i :: 0 <= i < |d.derivesTo| && NormalizeIast(d.derivesTo[i]) != "" ==> NormalizeIast(d.derivesTo[i]) in NormSet(r))
      && (forall x :: x in r ==> x == d.iast || x in d.derivesTo || exists i :: 0 <= i < |d.derivedForms| && d.derivedForms[i].form == Some(x))
  {
    WithDerivedSpec([d.iast], d.derivedForms);
    var base := WithDerived([d.iast], d.derivedForms);
    WithNamesShape(base, d.derivesTo);
    WithNamesCovers(base, d.derivesTo);
    var r := ValidForms(d);
    assert r[..|base|] == base && base[..1] == [d.iast];
    assert r[0] == base[0];
    forall i | 0 <= i < |d.derivedForms| && d.derivedForms[i].form.GetOr("") != ""
      ensures d.derivedForms[i].form.value in r
    {
      var k :| 0 <= k < |base| && base[k] == d.derivedForms[i].form.value;
      assert r[k] == base[k];
    }
  }

  /** `_build_valid_forms`. */
  method BuildValidForms(d: Dhatu) returns (forms: seq<string>)
    ensures forms == ValidForms(d)
  {
    forms := [d.iast];
    for i := 0 to |d.derivedForms|
      invariant forms == WithDerived([d.iast], d.derivedForms[..i])
    {
      var f := d.derivedForms[i].form.GetOr("");
      if f != "" && f !in forms {
        forms := forms + [f];
      }
      assert d.derivedForms[..i + 1][..i] == d.derivedForms[..i];
    }
    assert d.derivedForms[..|d.derivedForms|] == d.derivedForms;
    var base := forms;
    for i := 0 to |d.derivesTo|
      invariant forms == WithNames(base, d.derivesTo[..i])
    {
      var name := d.derivesTo[i];
      var norm := NormalizeIast(name);
      var seen := set f | f in forms :: NormalizeIast(f);
      if norm != "" && norm !in seen {
        forms := forms + [name];
      }
      assert d.derivesTo[..i + 1][..i] == d.derivesTo[..i];
    }
    assert d.derivesTo[..|d.derivesTo|] == d.derivesTo;
  }

  // ---------------------------------------------------------------------------
  // The session

  /** A snapshot of a session's fields. */
  datatype SessionData = SessionData(
    rootId: string, rootIast: string, rootMeaning: string, rootDevanagari: string,
    validForms: seq<string>, tree: set<string>, challengeCount: int)

  /** The valid forms not yet produced, in their listed order. */
  function Unused(validForms: seq<string>, tree: set<string>): (r: seq<string>)
    ensures |r| <= |validForms|
    ensures forall f :: f in r <==> f in validForms && f !in tree
  {
    if validForms == [] then []
    else
      var rest := Unused(validForms[..|validForms| - 1], tree);
      var f := validForms[|validForms| - 1];
      if f !in tree then rest + [f] else rest
  }

  /** A root is exhausted exactly when every valid form is in the tree. */
  lemma ExhaustedMeansAllProduced(validForms: seq<string>, tree: set<string>)
    ensures Unused(validForms, tree) == [] <==> forall i :: 0 <= i < |validForms| ==> validForms[i] in tree
  {
    if Unused(validForms, tree) != [] {
      var f := Unused(validForms, tree)[0];
      assert f in Unused(validForms, tree);
    }
  }

  /** `DhatuSession`: the state of one root's game. */
  class DhatuSession {
    var rootId: string
    var rootIast: string
    var rootMeaning: string
    var rootDevanagari: string
    var validForms: seq<string>
    var tree: set<string>
    var challengeCount: int

    constructor (d: SessionData)
      ensures Data() == d
    {
      rootId := d.rootId;
      rootIast := d.rootIast;
      rootMeaning := d.rootMeaning;
      rootDevanagari := d.rootDevanagari;
      validForms := d.validForms;
      tree := d.tree;
      challengeCount := d.challengeCount;
    }

    function Data(): SessionData
      reads this
    {
      SessionData(rootId, rootIast, rootMeaning, rootDevanagari, validForms, tree, challengeCount)
    }

    /** `unused_forms`. */
    function UnusedForms(): (r: seq<string>)
      reads this
      ensures forall f :: f in r <==> f in validForms && f !in tree
    {
      Unused(validForms, tree)
    }

    /** A correct answer: the form joins the tree and the count goes up by one. */
    method Accept(form: string)
      modifies this
      ensures Data() == old(Data()).(tree := old(tree) + {form}, challengeCount := old(challengeCount) + 1)
    {
      tree := tree + {form};
      challengeCount := challengeCount + 1;
    }

    /** `is_exhausted`. */
    predicate IsExhausted()
      reads this
    {
      UnusedForms() == []
    }
  }

  /** What the engine keeps in a challenge's meta: a live session object or plain data. */
  datatype MetaValue = Live(session: DhatuSession) | Plain(json: Json)

  type Meta = Table<MetaValue>

  /** Python truthiness of a meta value; an object is always true. */
  predicate MetaTruthy(v: MetaValue)
  {
    v.Live? || Truthy(v.json)
  }

  function Field(meta: Meta, key: string): Option<MetaValue>
  {
    Get(meta, key)
  }

  predicate ExhaustedFlag(meta: Meta)
  {
    Field(meta, "exhausted").Some? && MetaTruthy(Field(meta, "exhausted").value)
  }

  /** `not session or not valid_forms`. */
  predicate MissingState(meta: Meta)
  {
    || Field(meta, "session").None? || !MetaTruthy(Field(meta, "session").value)
    || Field(meta, "valid_forms").None? || !MetaTruthy(Field(meta, "valid_forms").value)
  }

  /**
   * The meta values `evaluate` can work with: once past the exhausted and
   * missing-state checks, the session is a live object and `valid_forms` a
   * list of strings.
   */
  predicate EvaluableMeta(meta: Meta)
  {
    !ExhaustedFlag(meta) && !MissingState(meta) ==>
      && Field(meta, "session").value.Live?
      && Field(meta, "valid_forms").value.Plain?
      && Field(meta, "valid_forms").value.json.JArr?
      && AsStrings(Field(meta, "valid_forms").value.json.items).Some?
  }

  /** The session objects a meta refers to. */
  function SessionsIn(meta: Meta): set<DhatuSession>
  {
    set i | 0 <= i < |meta| && meta[i].1.Live? :: meta[i].1.session
  }

  function SourceChunk<M>(challenge: Challenge<M>): string
  {
    if challenge.sourceChunkIds != [] then challenge.sourceChunkIds[0] else ""
  }

  // ---------------------------------------------------------------------------
  // Judging one answer against a live session

  /** The first derived form of the root with the given normal form. */
  function FormInfo(dhatus: seq<Dhatu>, rootId: string, normalized: string): (r: Option<DerivedForm>)
    ensures r.Some? ==> NormalizeIast(r.value.form.GetOr("")) == normalized
  {
    var roots := FirstWithId(dhatus, rootId);
    if roots.None? then None else FirstForm(roots.value.derivedForms, normalized)
  }

  function FirstWithId(dhatus: seq<Dhatu>, id: string): (r: Option<Dhatu>)
    ensures r.Some? ==> r.value in dhatus && r.value.id == id
    ensures r.None? ==> forall d :: d in dhatus ==> d.id != id
  {
    if dhatus == [] then None
    else if dhatus[0].id == id then Some(dhatus[0])
    else FirstWithId(dhatus[1..], id)
  }

  function FirstForm(dfs: seq<DerivedForm>, normalized: string): (r: Option<DerivedForm>)
    ensures r.Some? ==> r.value in dfs && NormalizeIast(r.value.form.GetOr("")) == normalized
  {
    if dfs == [] then None
    else if NormalizeIast(dfs[0].form.GetOr("")) == normalized then Some(dfs[0])
    else FirstForm(dfs[1..], normalized)
  }

  /** Whether some listed form normalises to `normalized`. */
  predicate Matches(validForms: seq<string>, normalized: string)
  {
    exists i :: 0 <= i < |validForms| && NormalizeIast(validForms[i]) == normalized
  }

  /** The loop over the valid forms in `evaluate`: the index of the first match, or the length when none matches. */
  method FirstMatch(validForms: seq<string>, normalized: string) returns (i: nat)
    ensures i <= |validForms|
    ensures i < |validForms| <==> Matches(validForms, normalized)
    ensures i < |validForms| ==> NormalizeIast(validForms[i]) == normalized
    ensures forall j :: 0 <= j < i ==> NormalizeIast(validForms[j]) != normalized
  {
    i := 0;
    while i < |validForms|
      invariant i <= |validForms|
      invariant forall j :: 0 <= j < i ==> NormalizeIast(validForms[j]) != normalized
    {
      if NormalizeIast(validForms[i]) == normalized {
        return;
      }
      i := i + 1;
    }
  }

  function RepeatText(input: string): string
  {
    "You already used " + input + ". Produce a different form."
  }

  function CorrectText(input: string, info: Option<DerivedForm>): string
  {
    var suffix := if info.Some? then info.value.suffix.GetOr("") else "";
    var meaning := if info.Some? then info.value.meaning.GetOr("") else "";
    if suffix != "" then "Correct. " + input + " = " + suffix + " → " + meaning else "Correct. " + input
  }

  function InvalidText(input: string, rootIast: string, validForms: seq<string>): string
  {
    "'" + input + "' is not a valid derived form of √" + rootIast + ". Valid unused: " + Join(Take(validForms, 5), ", ") + "..."
  }

  /**
   * The verdict on one answer for a live session, and the session after it:
   * a repeat or an unknown form changes nothing, a new valid form is added
   * to the tree and counted.
   */
  function Judge(dhatus: seq<Dhatu>, input: string, s: SessionData, validForms: seq<string>, chunkId: string): (EvalResult, SessionData)
  {
    var normalized := NormalizeIast(input);
    if normalized in s.tree then
      (EvalResult(false, Some("dhatu_repeat"), RepeatText(input), "That form is already in the tree.", chunkId), s)
    else if Matches(validForms, normalized) then
      (EvalResult(true, Some("dhatu_valid"), CorrectText(input, FormInfo(dhatus, s.rootId, normalized)), "sādhu!", chunkId),
       s.(tree := s.tree + {normalized}, challengeCount := s.challengeCount + 1))
    else
      (EvalResult(false, Some("dhatu_invalid"), InvalidText(input, s.rootIast, validForms), "punar vadatu. Try another form.", chunkId), s)
  }

  /** A new form that matches is accepted with the valid-form text, and joins the tree. */
  lemma JudgeAccepts(dhatus: seq<Dhatu>, input: string, s: SessionData, validForms: seq<string>, chunkId: string)
    requires NormalizeIast(input) !in s.tree && Matches(validForms, NormalizeIast(input))
    ensures Judge(dhatus, input, s, validForms, chunkId).0 ==
      EvalResult(true, Some("dhatu_valid"), CorrectText(input, FormInfo(dhatus, s.rootId, NormalizeIast(input))), "sādhu!", chunkId)
    ensures Judge(dhatus, input, s, validForms, chunkId).1 ==
      s.(tree := s.tree + {NormalizeIast(input)}, challengeCount := s.challengeCount + 1)
  {
  }

  /**
   * An answer is accepted exactly when its normal form is new and matches a
   * valid form; then the tree grows by exactly that form and the count by
   * one. Otherwise the session is unchanged.
   */
  lemma JudgeSpec(dhatus: seq<Dhatu>, input: string, s: SessionData, validForms: seq<string>, chunkId: string)
    ensures var (r, s') := Judge(dhatus, input, s, validForms, chunkId); var n := NormalizeIast(input);
      && (r.correct <==> n !in s.tree && Matches(validForms, n))
      && (r.correct ==> s' == s.(tree := s.tree + {n}, challengeCount := s.challengeCount + 1)
                        && |s'.tree| == |s.tree| + 1 && r.ruleId == Some("dhatu_valid"))
      && (!r.correct ==> s' == s)
      && (n in s.tree ==> r.ruleId == Some("dhatu_repeat"))
      && r.chunkId == chunkId
  {
  }

  // ---------------------------------------------------------------------------
  // The engine

  const CommonRoots: set<string> := {"dhatu-bhu", "dhatu-kri", "dhatu-gam", "dhatu-vach", "dhatu-drish"}

  const Exhausted: string := "__EXHAUSTED__"

  /** The roots a new game may start from: the common ones, else the first fifteen. */
  function Candidates(dhatus: seq<Dhatu>): (r: seq<Dhatu>)
    ensures r == [] <==> dhatus == []
    ensures forall d :: d in r ==> d in dhatus
  {
    var common := CommonOf(dhatus);
    if common != [] then common else Take(dhatus, 15)
  }

  function CommonOf(dhatus: seq<Dhatu>): (r: seq<Dhatu>)
    ensures forall d :: d in r <==> d in dhatus && d.id in CommonRoots
  {
    if dhatus == [] then []
    else (if dhatus[0].id in CommonRoots then [dhatus[0]] else []) + CommonOf(dhatus[1..])
  }

  /** The session a new game starts with: the root's forms, and only the root in the tree. */
  function NewSessionData(d: Dhatu): (s: SessionData)
    ensures s.tree == {d.iast} && s.challengeCount == 0 && s.validForms == ValidForms(d)
  {
    SessionData(d.id, d.iast, d.meaning.GetOr("to be"), d.devanagari.GetOr(""), ValidForms(d), {d.iast}, 0)
  }

  /** A new session is never exhausted unless the root lists no forms beyond itself. */
  lemma NewSessionTreeIsRoot(d: Dhatu)
    ensures Unused(NewSessionData(d).validForms, NewSessionData(d).tree) == [] <==>
      forall i :: 0 <= i < |ValidForms(d)| ==> ValidForms(d)[i] == d.iast
  {
    ExhaustedMeansAllProduced(ValidForms(d), {d.iast});
  }

  function ExhaustedPrompt(rootIast: string, listing: seq<string>): string
  {
    "√" + rootIast + " exhausted! Tree: " + Join(listing, ", ")
  }

  function TurnPrompt(rootIast: string, rootMeaning: string, listing: seq<string>): string
  {
    "√" + rootIast + " (" + rootMeaning + "). Tree so far: " + Join(listing, ", ") + ". Produce a valid derived form not yet in the tree."
  }

  /** The challenge `generate` returns for a session, `hex` being the random id suffix. */
  ghost function ChallengeFor(session: DhatuSession, s: SessionData, hex: string, diff: real): Challenge<MetaValue>
  {
    var unused := Unused(s.validForms, s.tree);
    var chunks := ["dhatu_" + s.rootId];
    if unused == [] then
      Challenge("dhatu_exhausted_" + hex, "dhatu_dash", ExhaustedPrompt(s.rootIast, SortedOf(s.tree)), JStr(Exhausted),
        chunks, "dhatu", diff, [("session", Live(session)), ("exhausted", Plain(JBool(true)))])
    else
      Challenge("dhatu_" + hex, "dhatu_dash", TurnPrompt(s.rootIast, s.rootMeaning, SortedOf(s.tree)), JArr(Strings(unused)),
        chunks, "dhatu", diff, [("session", Live(session)), ("valid_forms", Plain(JArr(Strings(unused))))])
  }

  /**
   * A generated challenge offers exactly the unused forms, with the session
   * attached; an exhausted session is marked so and answers nothing.
   */
  lemma ChallengeForSpec(session: DhatuSession, s: SessionData, hex: string, diff: real)
    ensures var c := ChallengeFor(session, s, hex, diff); var unused := Unused(s.validForms, s.tree);
      && Field(c.meta, "session") == Some(Live(session))
      && (unused == [] <==> ExhaustedFlag(c.meta))
      && (unused == [] ==> c.correctAnswer == JStr(Exhausted))
      && (unused != [] ==> c.correctAnswer == JArr(Strings(unused)) && Field(c.meta, "valid_forms") == Some(Plain(JArr(Strings(unused)))))
      && EvaluableMeta(c.meta)
      && c.sourceChunkIds == ["dhatu_" + s.rootId]
  {
    var unused := Unused(s.validForms, s.tree);
    var c := ChallengeFor(session, s, hex, diff);
    if unused != [] {
      assert AsStrings(Strings(unused)).Some?;
      assert c.meta[1].0 == "valid_forms" && "valid_forms"[0] != "exhausted"[0];
      assert Field(c.meta, "exhausted").None?;
    } else {
      assert c.meta[1] == ("exhausted", Plain(JBool(true)));
      assert Field(c.meta, "exhausted") == Some(Plain(JBool(true)));
    }
  }

  /** `DhatuDashEngine`: the shared engine plus the root list it loaded. */
  class DhatuDashEngine {
    const core: CoreEngine
    const dhatus: seq<Dhatu>

    constructor (core: CoreEngine, dhatus: seq<Dhatu>)
      ensures this.core == core && this.dhatus == dhatus
    {
      this.core := core;
      this.dhatus := dhatus;
    }

    /** `_pick_root`: a random candidate, or none when no roots are loaded. */
    method PickRoot() returns (d: Option<Dhatu>)
      ensures d.None? <==> dhatus == []
      ensures d.Some? ==> d.value in Candidates(dhatus)
    {
      var candidates := Candidates(dhatus);
      if candidates == [] {
        return None;
      }
      assert candidates[0] in candidates;
      var pick :| pick in candidates;
      return Some(pick);
    }

    /**
     * `generate`: continue the given session or start one on a random root,
     * then offer the unused forms. `None` is the error raised when no roots
     * are loaded; `hex` stands for the random id suffix.
     */
    method Generate(profile: UserProfile, difficulty: Option<real>, session: Option<DhatuSession>, hex: string)
      returns (c: Option<Challenge<MetaValue>>)
      ensures c.None? <==> session.None? && dhatus == []
      ensures c.Some? ==> c.value.difficulty == difficulty.GetOr(TargetDifficulty(profile.avgRecentScore))
      ensures c.Some? && session.Some? ==> c.value == ChallengeFor(session.value, session.value.Data(), hex, c.value.difficulty)
      ensures c.Some? && session.None? ==> exists s: DhatuSession, d: Dhatu ::
        fresh(s) && d in Candidates(dhatus) && s.Data() == NewSessionData(d) && c.value == ChallengeFor(s, s.Data(), hex, c.value.difficulty)
    {
      var diff := if difficulty.Some? then difficulty.value else TargetDifficulty(profile.avgRecentScore);
      var s: DhatuSession;
      ghost var root: Dhatu;
      if session.None? {
        var d := PickRoot();
        if d.None? {
          return None;
        }
        var forms := BuildValidForms(d.value);
        s := new DhatuSession(SessionData(d.value.id, d.value.iast, d.value.meaning.GetOr("to be"),
          d.value.devanagari.GetOr(""), forms, {d.value.iast}, 0));
        root := d.value;
      } else {
        s := session.value;
      }
      var unused := s.UnusedForms();
      var listing := SortedListing(s.tree);
      var chunks := ["dhatu_" + s.rootId];
      if unused == [] {
        c := Some(Challenge("dhatu_exhausted_" + hex, "dhatu_dash", ExhaustedPrompt(s.rootIast, listing), JStr(Exhausted),
          chunks, "dhatu", diff, [("session", Live(s)), ("exhausted", Plain(JBool(true)))]));
      } else {
        c := Some(Challenge("dhatu_" + hex, "dhatu_dash", TurnPrompt(s.rootIast, s.rootMeaning, listing), JArr(Strings(unused)),
          chunks, "dhatu", diff, [("session", Live(s)), ("valid_forms", Plain(JArr(Strings(unused))))]));
      }
      assert c.value == ChallengeFor(s, s.Data(), hex, diff);
      if session.None? {
        assert fresh(s) && root in Candidates(dhatus) && s.Data() == NewSessionData(root);
      }
    }

    /**
     * `evaluate`: refuse an exhausted or incomplete challenge, then judge the
     * answer against the live session, updating it in place.
     */
    method Evaluate(input: string, challenge: Challenge<MetaValue>) returns (r: EvalResult)
      requires EvaluableMeta(challenge.meta)
      modifies SessionsIn(challenge.meta)
      ensures ExhaustedFlag(challenge.meta) ==>
        r == Verdict(false, "This root is exhausted. Start a new game!", "Start a new root.")
        && unchanged(SessionsIn(challenge.meta))
      ensures !ExhaustedFlag(challenge.meta) && MissingState(challenge.meta) ==>
        r == Verdict(false, "Invalid challenge state.", "Try again.") && unchanged(SessionsIn(challenge.meta))
      ensures !ExhaustedFlag(challenge.meta) && !MissingState(challenge.meta) ==>
        var s := Field(challenge.meta, "session").value.session;
        var forms := AsStrings(Field(challenge.meta, "valid_forms").value.json.items).value;
        && (r, s.Data()) == Judge(dhatus, input, old(s.Data()), forms, SourceChunk(challenge))
        && unchanged(SessionsIn(challenge.meta) - {s})
    {
      var meta := challenge.meta;
      var session := Field(meta, "session");
      var validForms := GetOr(meta, "valid_forms", Plain(JArr([])));
      var exhausted := Field(meta, "exhausted");
      if exhausted.Some? && MetaTruthy(exhausted.value) {
        return Verdict(false, "This root is exhausted. Start a new game!", "Start a new root.");
      }
      if session.None? || !MetaTruthy(session.value) || !MetaTruthy(validForms) {
        return Verdict(false, "Invalid challenge state.", "Try again.");
      }
      var s := session.value.session;
      assert s in SessionsIn(meta) by {
        var i :| 0 <= i < |meta| && meta[i] == ("session", session.value);
      }
      var forms := AsStrings(validForms.json.items).value;
      r := JudgeSession(s, input, forms, SourceChunk(challenge));
    }

    /** The part of `evaluate` that works on a live session. */
    method JudgeSession(s: DhatuSession, input: string, forms: seq<string>, chunkId: string) returns (r: EvalResult)
      modifies s
      ensures (r, s.Data()) == Judge(dhatus, input, old(s.Data()), forms, chunkId)
    {
      ghost var before := s.Data();
      var normalized := NormalizeIast(input);
      if normalized in s.tree {
        r := EvalResult(false, Some("dhatu_repeat"), RepeatText(input), "That form is already in the tree.", chunkId);
        assert Judge(dhatus, input, before, forms, chunkId) == (r, before);
        return;
      }
      var i := FirstMatch(forms, normalized);
      if i < |forms| {
        r := AcceptAnswer(s, input, forms, chunkId);
        return;
      }
      r := EvalResult(false, Some("dhatu_invalid"), InvalidText(input, s.rootIast, forms), "punar vadatu. Try another form.", chunkId);
      assert Judge(dhatus, input, before, forms, chunkId) == (r, before);
    }

    /** The accepting branch of `evaluate`: the new form joins the tree. */
    method AcceptAnswer(s: DhatuSession, input: string, forms: seq<string>, chunkId: string) returns (r: EvalResult)
      requires NormalizeIast(input) !in s.tree && Matches(forms, NormalizeIast(input))
      modifies s
      ensures (r, s.Data()) == Judge(dhatus, input, old(s.Data()), forms, chunkId)
    {
      ghost var before := s.Data();
      var normalized := NormalizeIast(input);
      var info := FormInfo(dhatus, s.rootId, normalized);
      s.Accept(normalized);
      r := EvalResult(true, Some("dhatu_valid"), CorrectText(input, info), "sādhu!", chunkId);
      JudgeAccepts(dhatus, input, before, forms, chunkId);
      assert r == Judge(dhatus, input, before, forms, chunkId).0;
      assert s.Data() == Judge(dhatus, input, before, forms, chunkId).1;
    }

    /** `get_session_from_challenge`. */
    function SessionFrom(challenge: Challenge<MetaValue>): (v: Option<MetaValue>)
      ensures v == Get(challenge.meta, "session")
    {
      Field(challenge.meta, "session")
    }
  }
}
