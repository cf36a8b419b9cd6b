/**
 * The deterministic grammar assessor of the tutor: a table from a root's
 * spelling to the set of its known forms, and the production criteria
 * (name the root of gacchati, give gacchati, produce three or five forms of
 * a root).
 */
module TutorGrammar {
  import opened Wrappers
  import opened Text
  import opened Sorting
  import opened DhatuDash

  // ---------------------------------------------------------------------------
  // The root-forms table

  /** The ASCII spelling of an IAST letter that `_build_root_forms` simplifies; any other letter stays. */
  function SimpleChar(c: char): char
  {
    match c
    case 'ū' => 'u'
    case 'ṛ' => 'r'
    case 'ṃ' => 'm'
    case 'ā' => 'a'
    case 'ī' => 'i'
    case 'ṭ' => 't'
    case _ => c
  }

  /** The chain of six `replace` calls; each maps one letter to an ASCII one, so they act letter by letter. */
  function Simplify(s: string): (r: string)
    ensures |r| == |s| && forall i :: 0 <= i < |s| ==> r[i] == SimpleChar(s[i])
  {
    seq(|s|, i requires 0 <= i < |s| => SimpleChar(s[i]))
  }

  /** The normalised non-empty `form`s of a root's derived forms. */
  function DerivedSet(dfs: seq<DerivedForm>): set<string>
  {
    set df | df in dfs && StripLower(df.form.GetOr("")) != "" :: StripLower(df.form.GetOr(""))
  }

  /** The normalised non-empty `derivesTo` names. */
  function NameSet(names: seq<string>): set<string>
  {
    set n | n in names && StripLower(n) != "" :: StripLower(n)
  }

  /** The form set of one root: its spelling, its derived forms and the names it derives to. */
  function FormsOf(d: Dhatu): set<string>
  {
    {StripLower(d.iast)} + DerivedSet(d.derivedForms) + NameSet(d.derivesTo)
  }

  lemma DerivedSetSnoc(dfs: seq<DerivedForm>, df: DerivedForm)
    ensures var f := StripLower(df.form.GetOr(""));
      DerivedSet(dfs + [df]) == DerivedSet(dfs) + (if f != "" then {f} else {})
  {
    assert forall x :: x in dfs + [df] <==> x in dfs || x == df;
  }

  lemma NameSetSnoc(names: seq<string>, name: string)
    ensures var n := StripLower(name);
      NameSet(names + [name]) == NameSet(names) + (if n != "" then {n} else {})
  {
    assert forall x :: x in names + [name] <==> x in names || x == name;
  }

  /** The form-set loops of `_build_root_forms` for one root. */
  method CollectForms(d: Dhatu) returns (forms: set<string>)
    ensures forms == FormsOf(d)
  {
    forms := AddDerived({StripLower(d.iast)}, d.derivedForms);
    forms := AddNames(forms, d.derivesTo);
  }

  /** The loop over `derivedForms`: each non-empty normalised form joins the set. */
  method AddDerived(forms0: set<string>, dfs: seq<DerivedForm>) returns (forms: set<string>)
    ensures forms == forms0 + DerivedSet(dfs)
  {
    forms := forms0;
    for i := 0 to |dfs|
      invariant forms == forms0 + DerivedSet(dfs[..i])
    {
      var f := StripLower(dfs[i].form.GetOr(""));
      if f != "" {
        forms := forms + {f};
      }
      assert dfs[..i + 1] == dfs[..i] + [dfs[i]];
      DerivedSetSnoc(dfs[..i], dfs[i]);
    }
    assert dfs[..|dfs|] == dfs;
  }

  /** The loop over `derivesTo`: each non-empty normalised name joins the set. */
  method AddNames(forms0: set<string>, names: seq<string>) returns (forms: set<string>)
    ensures forms == forms0 + NameSet(names)
  {
    forms := forms0;
    for i := 0 to |names|
      invariant forms == forms0 + NameSet(names[..i])
    {
      var n := StripLower(names[i]);
      if n != "" {
        forms := forms + {n};
      }
      assert names[..i + 1] == names[..i] + [names[i]];
      NameSetSnoc(names[..i], names[i]);
    }
    assert names[..|names|] == names;
  }

  /** The aliases `_build_root_forms` adds for kṛ, bhū and gam. */
  function Aliases(iast: string): set<string>
  {
    if iast == "kṛ" then {"kri"} else if iast == "bhū" then {"bhu"} else if iast == "gam" then {"ga"} else {}
  }

  /** The keys one root is entered under: its spelling, its simplified spelling and its alias. */
  function KeysOf(iast: string): set<string>
  {
    {iast, Simplify(iast)} + Aliases(iast)
  }

  /** `table[k] = v` for every key of `keys`. */
  function Assign(table: map<string, set<string>>, keys: set<string>, v: set<string>): (r: map<string, set<string>>)
    ensures forall k :: k in keys ==> k in r && r[k] == v
    ensures forall k :: k !in keys ==> (k in r <==> k in table) && (k in table ==> r[k] == table[k])
  {
    map k | k in table.Keys + keys :: if k in keys then v else table[k]
  }

  /** One step of the outer loop: a root with an empty spelling is skipped; otherwise every key of it gets its form set. */
  function AddRoot(table: map<string, set<string>>, d: Dhatu): (r: map<string, set<string>>)
  {
    var iast := StripLower(d.iast);
    if iast == "" then table else Assign(table, KeysOf(iast), FormsOf(d))
  }

  /** The assignments of one root in `_build_root_forms`: its spelling, then its simplified spelling, then its alias. */
  method EnterRoot(table0: map<string, set<string>>, iast: string, forms: set<string>) returns (table: map<string, set<string>>)
    ensures table == Assign(table0, KeysOf(iast), forms)
  {
    table := EnterSpellings(table0, iast, forms);
    table := EnterAlias(table, iast, forms);
    AssignMore(table0, {iast, Simplify(iast)}, Aliases(iast), forms);
  }

  /** The first two assignments: the spelling, then the simplified spelling when it differs. */
  method EnterSpellings(table0: map<string, set<string>>, iast: string, forms: set<string>) returns (table: map<string, set<string>>)
    ensures table == Assign(table0, {iast, Simplify(iast)}, forms)
  {
    table := table0[iast := forms];
    var simple := Simplify(iast);
    if simple != iast {
      table := table[simple := forms];
    }
  }

  /** The alias assignment for kṛ, bhū and gam; other roots have none. */
  method EnterAlias(table0: map<string, set<string>>, iast: string, forms: set<string>) returns (table: map<string, set<string>>)
    ensures table == Assign(table0, Aliases(iast), forms)
  {
    table := table0;
    if iast == "kṛ" {
      table := table["kri" := forms];
    } else if iast == "bhū" {
      table := table["bhu" := forms];
    } else if iast == "gam" {
      table := table["ga" := forms];
    }
  }

  /** Assigning two key sets one after the other is assigning their union. */
  lemma AssignMore(table: map<string, set<string>>, keys: set<string>, more: set<string>, v: set<string>)
    ensures Assign(Assign(table, keys, v), more, v) == Assign(table, keys + more, v)
  {
  }

  /** `_ROOT_FORMS` after the loop over the root list; a later root overwrites an earlier one's keys. */
  function RootForms(dhatus: seq<Dhatu>): map<string, set<string>>
  {
    if dhatus == [] then map[] else AddRoot(RootForms(dhatus[..|dhatus| - 1]), dhatus[|dhatus| - 1])
  }

  /** `_build_root_forms` over the loaded root list. */
  method BuildRootForms(dhatus: seq<Dhatu>) returns (table: map<string, set<string>>)
    ensures table == RootForms(dhatus)
  {
    table := map[];
    for i := 0 to |dhatus|
      invariant table == RootForms(dhatus[..i])
    {
      var d := dhatus[i];
      var iast := StripLower(d.iast);
      assert dhatus[..i + 1][..i] == dhatus[..i];
      if iast != "" {
        var forms := CollectForms(d);
        table := EnterRoot(table, iast, forms);
      }
    }
    assert dhatus[..|dhatus|] == dhatus;
  }

  /** Every root with a spelling is in the table, under its spelling. */
  lemma {:induction false} RootFormsHasEveryRoot(dhatus: seq<Dhatu>)
    ensures forall i :: 0 <= i < |dhatus| && StripLower(dhatus[i].iast) != "" ==> StripLower(dhatus[i].iast) in RootForms(dhatus)
  {
    if dhatus != [] {
      var init := dhatus[..|dhatus| - 1];
      RootFormsHasEveryRoot(init);
      AddRootKeeps(RootForms(init), dhatus[|dhatus| - 1]);
      forall i | 0 <= i < |dhatus| && StripLower(dhatus[i].iast) != ""
        ensures StripLower(dhatus[i].iast) in RootForms(dhatus)
      {
        if i < |init| {
          assert init[i] == dhatus[i];
        }
      }
    }
  }

  /** Entering a root keeps every key and adds its spelling. */
  lemma AddRootKeeps(table: map<string, set<string>>, d: Dhatu)
    ensures table.Keys <= AddRoot(table, d).Keys
    ensures StripLower(d.iast) != "" ==> StripLower(d.iast) in AddRoot(table, d)
  {
  }

  /** Every entry of the table is the form set of some root of the list. */
  lemma {:induction false} RootFormsFromRoots(dhatus: seq<Dhatu>)
    ensures forall k :: k in RootForms(dhatus) ==> exists d :: d in dhatus && RootForms(dhatus)[k] == FormsOf(d)
  {
    if dhatus != [] {
      var init := dhatus[..|dhatus| - 1];
      var d := dhatus[|dhatus| - 1];
      RootFormsFromRoots(init);
      var r := RootForms(dhatus);
      forall k | k in r
        ensures exists e :: e in dhatus && r[k] == FormsOf(e)
      {
        if StripLower(d.iast) != "" && k in KeysOf(StripLower(d.iast)) {
          assert r[k] == FormsOf(d);
        } else {
          assert r == AddRoot(RootForms(init), d);
          assert k in RootForms(init) && r[k] == RootForms(init)[k];
          var e :| e in init && RootForms(init)[k] == FormsOf(e);
          assert e in dhatus;
        }
      }
    }
  }

  /** The last root entered under a key decides its forms. */
  lemma LastRootWins(dhatus: seq<Dhatu>, d: Dhatu)
    requires StripLower(d.iast) != ""
    ensures var r := RootForms(dhatus + [d]);
      forall k :: k in KeysOf(StripLower(d.iast)) ==> k in r && r[k] == FormsOf(d)
  {
    assert (dhatus + [d])[..|dhatus|] == dhatus;
  }

  /** A root's form set holds its own spelling, every non-empty derived form and every non-empty name. */
  lemma FormsOfSpec(d: Dhatu)
    ensures StripLower(d.iast) in FormsOf(d)
    ensures forall df :: df in d.derivedForms && StripLower(df.form.GetOr("")) != "" ==> StripLower(df.form.GetOr("")) in FormsOf(d)
    ensures forall n :: n in d.derivesTo && StripLower(n) != "" ==> StripLower(n) in FormsOf(d)
    ensures "" in FormsOf(d) ==> StripLower(d.iast) == ""
  {
  }

  // ---------------------------------------------------------------------------
  // `assess_grammar_production`

  /** `s.replace(c, " ")`. */
  function BlankOut(s: string, c: char): (r: string)
    ensures |r| == |s| && forall i :: 0 <= i < |s| ==> r[i] == if s[i] == c then ' ' else s[i]
  {
    seq(|s|, i requires 0 <= i < |s| => if s[i] == c then ' ' else s[i])
  }

  /** The tokens of an answer: commas and newlines are separators as well as whitespace. */
  function Tokens(answer: string): seq<string>
  {
    Words(BlankOut(BlankOut(answer, ','), '\n'))
  }

  /** How many tokens are known forms; a token given twice counts twice. */
  function CountValid(parts: seq<string>, valid: set<string>): (n: nat)
    ensures n <= |parts|
  {
    if parts == [] then 0
    else CountValid(parts[..|parts| - 1], valid) + (if StripLower(parts[|parts| - 1]) in valid then 1 else 0)
  }

  lemma {:induction false} CountValidAppend(a: seq<string>, b: seq<string>, valid: set<string>)
    ensures CountValid(a + b, valid) == CountValid(a, valid) + CountValid(b, valid)
    decreases |b|
  {
    if b == [] {
      assert a + b == a;
    } else {
      assert (a + b)[..|a + b| - 1] == a + b[..|b| - 1];
      assert (a + b)[|a + b| - 1] == b[|b| - 1];
      CountValidAppend(a, b[..|b| - 1], valid);
    }
  }

  /** Repeating an answer doubles its count of valid forms. */
  lemma RepeatsCountTwice(parts: seq<string>, valid: set<string>)
    ensures CountValid(parts + parts, valid) == 2 * CountValid(parts, valid)
  {
    CountValidAppend(parts, parts, valid);
  }

  /** The root whose forms are counted: the `root_kri` and `root_bhu` criteria win over the context's root. */
  function RootHint(criteria: seq<string>, contextRoot: Option<string>): (h: string)
    ensures "root_kri" in criteria ==> h == "kri"
    ensures "root_kri" !in criteria && "root_bhu" in criteria ==> h == "bhu"
    ensures h != ""
  {
    if "root_kri" in criteria then "kri"
    else if "root_bhu" in criteria then "bhu"
    else if contextRoot.Some? && contextRoot.value != "" then contextRoot.value
    else "bhu"
  }

  /** `root_forms.get(hint) or root_forms.get("kṛ" or "bhū") or set()`: an empty set counts as missing. */
  function ValidFor(table: map<string, set<string>>, hint: string): (v: set<string>)
    ensures hint in table && table[hint] != {} ==> v == table[hint]
  {
    var fallback := if hint == "kri" then "kṛ" else "bhū";
    if hint in table && table[hint] != {} then table[hint]
    else if fallback in table then table[fallback]
    else {}
  }

  /** The answer as compared: stripped and lower-cased. */
  function NormalizeAnswer(s: string): string
  {
    StripLower(s)
  }

  /**
   * `assess_grammar_production`: whether the answer passes and the feedback.
   * `criteria` is the `production` list of the pass criteria (empty when
   * missing), `contextRoot` the caller's `context["root"]`.
   */
  function AssessProduction(userAnswer: string, criteria: seq<string>, contextRoot: Option<string>, table: map<string, set<string>>): (bool, string)
  {
    var answer := NormalizeAnswer(userAnswer);
    if criteria == [] then (true, "")
    else if answer == "" then (false, "No answer provided.")
    else if "correct_root_for_gacchati" in criteria then
      if answer in ["gam", "ga", "gama"] then (true, "Correct. गच्छति derives from √गम् (gam).")
      else (false, "गच्छति (gacchati) comes from the root √गम् (gam), not " + userAnswer + ".")
    else if "gacchati" in criteria then
      if answer == "gacchati" then (true, "Correct.")
      else (false, "The present 3rd person singular of √गम् is गच्छति (gacchati). You wrote: " + userAnswer + ".")
    else if "produces_3_valid_forms" in criteria || "produces_5_valid_forms" in criteria then
      var minForms := if "produces_5_valid_forms" in criteria then 5 else 3;
      var hint := RootHint(criteria, contextRoot);
      var valid := ValidFor(table, hint);
      var found := CountValid(Tokens(answer), valid);
      if found >= minForms then (true, "Correct. You produced " + NatToString(found) + " valid form(s).")
      else (false, "You produced " + NatToString(found) + " valid form(s). Need at least " + NatToString(minForms)
                   + ". Valid forms for √" + hint + " include: " + Join(Take(SortedOf(valid), 8), ", ") + "...")
    else (false, "Assessment criteria not implemented for this production check.")
  }

  /** No production criteria always pass; an empty answer to any criterion fails. */
  lemma AssessEdges(userAnswer: string, criteria: seq<string>, contextRoot: Option<string>, table: map<string, set<string>>)
    ensures criteria == [] ==> AssessProduction(userAnswer, criteria, contextRoot, table) == (true, "")
    ensures criteria != [] && NormalizeAnswer(userAnswer) == "" ==> AssessProduction(userAnswer, criteria, contextRoot, table) == (false, "No answer provided.")
  {
  }

  /**
   * The root of gacchati is accepted as gam, ga or gama, and that criterion
   * is checked before the exact-form one.
   */
  lemma GacchatiRootRule(userAnswer: string, criteria: seq<string>, contextRoot: Option<string>, table: map<string, set<string>>)
    requires "correct_root_for_gacchati" in criteria && NormalizeAnswer(userAnswer) != ""
    ensures AssessProduction(userAnswer, criteria, contextRoot, table).0 <==> NormalizeAnswer(userAnswer) in {"gam", "ga", "gama"}
  {
  }

  /** The produce-N rule passes exactly when at least N tokens (N = 5 with `produces_5_valid_forms`, else 3) are known forms of the hinted root. */
  lemma ProduceRule(userAnswer: string, criteria: seq<string>, contextRoot: Option<string>, table: map<string, set<string>>)
    requires NormalizeAnswer(userAnswer) != ""
    requires "correct_root_for_gacchati" !in criteria && "gacchati" !in criteria
    requires "produces_3_valid_forms" in criteria || "produces_5_valid_forms" in criteria
    ensures var n := if "produces_5_valid_forms" in criteria then 5 else 3;
      AssessProduction(userAnswer, criteria, contextRoot, table).0
      <==> CountValid(Tokens(NormalizeAnswer(userAnswer)), ValidFor(table, RootHint(criteria, contextRoot))) >= n
  {
  }

  /** A non-empty answer to criteria none of the known rules recognise fails. */
  lemma UnknownCriteriaFail(userAnswer: string, criteria: seq<string>, contextRoot: Option<string>, table: map<string, set<string>>)
    requires criteria != [] && NormalizeAnswer(userAnswer) != ""
    requires forall c :: c in criteria ==> c !in ["correct_root_for_gacchati", "gacchati", "produces_3_valid_forms", "produces_5_valid_forms"]
    ensures !AssessProduction(userAnswer, criteria, contextRoot, table).0
  {
  }
}
