/**
 * The forms the front end accepts for a verbal root: the root's own IAST, its
 * derived forms and the names it derives to, and the membership test over
 * them.
 */
module RootForms {
  import opened Text

  /** One derived form of a root as listed in the roots data. */
  datatype DerivedForm = DerivedForm(form: string, devanagari: string, suffix: string, meaning: string, category: string)

  /** A verbal root (dhātu) of the roots data; a missing list is the empty list. */
  datatype Dhatu = Dhatu(
    id: string, iast: string, devanagari: string, meaning: string, gana: int,
    derivedForms: seq<DerivedForm>, derivesTo: seq<string>)

  /** `name.replace(/^ā/, "a")`: a leading long ā becomes a short a. */
  function DropLongA(name: string): (r: string)
    ensures |r| == |name|
    ensures |name| > 0 && name[0] == 'ā' ==> r == "a" + name[1..]
    ensures !(|name| > 0 && name[0] == 'ā') ==> r == name
  {
    if |name| > 0 && name[0] == 'ā' then "a" + name[1..] else name
  }

  /** The key a derivesTo name is compared under. */
  function NameKey(name: string): (r: string)
    ensures |r| == |name|
  {
    Lower(DropLongA(name))
  }

  /** Some form lower-cases to `n` (`forms.some((f) => f.toLowerCase() === n)`). */
  predicate HasCaseless(forms: seq<string>, n: string)
  {
    exists f :: f in forms && Lower(f) == n
  }

  /** No string occurs twice. */
  predicate Distinct(s: seq<string>)
  {
    forall i, j :: 0 <= i < j < |s| ==> s[i] != s[j]
  }

  /** The first loop: each non-empty derived form not yet present is appended. */
  function WithDerived(forms: seq<string>, dfs: seq<DerivedForm>): (r: seq<string>)
    ensures |forms| <= |r| && r[..|forms|] == forms
  {
    if dfs == [] then forms
    else
      var f := WithDerived(forms, dfs[..|dfs| - 1]);
      var x := dfs[|dfs| - 1].form;
      if x != "" && x !in f then f + [x] else f
  }

  /** The second loop: a name is appended unless a form already matches its key. */
  function WithNames(forms: seq<string>, names: seq<string>): (r: seq<string>)
    ensures |forms| <= |r| && r[..|forms|] == forms
  {
    if names == [] then forms
    else
      var f := WithNames(forms, names[..|names| - 1]);
      var name := names[|names| - 1];
      var n := NameKey(name);
      if n != "" && !HasCaseless(f, n) then f + [name] else f
  }

  /** The forms of `getAllFormsForRoot`. */
  function AllForms(d: Dhatu): (r: seq<string>)
    ensures |r| >= 1 && r[0] == d.iast
  {
    var r := WithNames(WithDerived([d.iast], d.derivedForms), d.derivesTo);
    assert r[..1] == [d.iast];
    r
  }

  /** `getAllFormsForRoot`: the root, then the two appending loops. */
  method GetAllFormsForRoot(d: Dhatu) returns (forms: seq<string>)
    ensures forms == AllForms(d)
  {
    forms := [d.iast];
    var dfs := d.derivedForms;
    for i := 0 to |dfs|
      invariant forms == WithDerived([d.iast], dfs[..i])
    {
      assert dfs[..i + 1][..i] == dfs[..i];
      var df := dfs[i];
      if df.form != "" && df.form !in forms {
        forms := forms + [df.form];
      }
    }
    assert dfs[..|dfs|] == dfs;
    var base := forms;
    var names := d.derivesTo;
    for i := 0 to |names|
      invariant forms == WithNames(base, names[..i])
    {
      assert names[..i + 1][..i] == names[..i];
      var name := names[i];
      var n := NameKey(name);
      if n != "" && !HasCaseless(forms, n) {
        forms := forms + [name];
      }
    }
    assert names[..|names|] == names;
  }

  /** The strings any form can come from: the root, a derived form or a derivesTo name. */
  function Sources(d: Dhatu): set<string>
  {
    {d.iast} + (set df | df in d.derivedForms :: df.form) + (set n | n in d.derivesTo)
  }

  /**
   * The derived-form loop keeps its input free of duplicates, adds every
   * non-empty derived form, and adds nothing else.
   */
  lemma {:induction false} WithDerivedSpec(forms: seq<string>, dfs: seq<DerivedForm>)
    requires Distinct(forms)
    ensures Distinct(WithDerived(forms, dfs))
    ensures forall df :: df in dfs && df.form != "" ==> df.form in WithDerived(forms, dfs)
    ensures forall x :: x in WithDerived(forms, dfs) ==> x in forms || exists df :: df in dfs && df.form == x
  {
    if dfs != [] {
      var init := dfs[..|dfs| - 1];
      WithDerivedSpec(forms, init);
      assert forall df :: df in init ==> df in dfs;
      assert dfs == init + [dfs[|dfs| - 1]];
    }
  }

  /**
   * The name loop adds only names, and after it every non-empty name either is
   * a form or its key matches some form case-insensitively.
   */
  lemma {:induction false} WithNamesSpec(forms: seq<string>, names: seq<string>)
    ensures forall x :: x in WithNames(forms, names) ==> x in forms || x in names
    ensures forall n :: n in names && n != "" ==> n in WithNames(forms, names) || HasCaseless(WithNames(forms, names), NameKey(n))
  {
    if names != [] {
      var init := names[..|names| - 1];
      var last := names[|names| - 1];
      WithNamesSpec(forms, init);
      WithNamesStep(forms, names);
      assert names == init + [last];
      NamesCoveredStep(init, last, WithNames(forms, init), WithNames(forms, names));
    }
  }

  /** Coverage of the earlier names carries over to the grown list, and the new name is covered. */
  lemma NamesCoveredStep(init: seq<string>, last: string, f: seq<string>, r: seq<string>)
    requires forall x :: x in f ==> x in r
    requires forall n :: n in init && n != "" ==> n in f || HasCaseless(f, NameKey(n))
    requires last != "" ==> last in r || HasCaseless(r, NameKey(last))
    ensures forall n :: n in init + [last] && n != "" ==> n in r || HasCaseless(r, NameKey(n))
  {
    forall n | n in init + [last] && n != ""
      ensures n in r || HasCaseless(r, NameKey(n))
    {
      if n != last && n !in f {
        assert n in init;
        CaselessGrows(f, r, NameKey(n));
      }
    }
  }

  /** One step of the name loop keeps every form, adds at most the new name, and covers it. */
  lemma WithNamesStep(forms: seq<string>, names: seq<string>)
    requires names != []
    ensures var f := WithNames(forms, names[..|names| - 1]);
      var r := WithNames(forms, names);
      var last := names[|names| - 1];
      && (forall x :: x in f ==> x in r)
      && (forall x :: x in r ==> x in f || x == last)
      && (last != "" ==> last in r || HasCaseless(r, NameKey(last)))
  {
    var f := WithNames(forms, names[..|names| - 1]);
    var r := WithNames(forms, names);
    assert r[..|f|] == f;
  }

  /** A case-insensitive match survives adding forms. */
  lemma CaselessGrows(f: seq<string>, r: seq<string>, key: string)
    requires forall x :: x in f ==> x in r
    requires HasCaseless(f, key)
    ensures HasCaseless(r, key)
  {
    var g :| g in f && Lower(g) == key;
    assert g in r;
  }

  /**
   * Every form is the root, a derived form or a derivesTo name; every
   * non-empty derived form is present; and the forms up to the name loop are
   * free of duplicates.
   */
  lemma AllFormsSpec(d: Dhatu)
    ensures forall x :: x in AllForms(d) ==> x in Sources(d)
    ensures forall df :: df in d.derivedForms && df.form != "" ==> df.form in AllForms(d)
    ensures Distinct(WithDerived([d.iast], d.derivedForms))
  {
    var base := WithDerived([d.iast], d.derivedForms);
    WithDerivedSpec([d.iast], d.derivedForms);
    WithNamesSpec(base, d.derivesTo);
    var r := AllForms(d);
    assert forall x :: x in base ==> x in r by {
      assert r[..|base|] == base;
    }
  }

  /**
   * A name with a leading ā never matches itself, so it is appended even when
   * the identical string is already a form: the root "āp" deriving to "āp"
   * lists "āp" twice.
   */
  lemma LongANameDuplicated()
    ensures AllForms(Dhatu("ap", "āp", "", "", 5, [], ["āp"])) == ["āp", "āp"]
  {
    var d := Dhatu("ap", "āp", "", "", 5, [], ["āp"]);
    assert WithDerived(["āp"], []) == ["āp"];
    assert NameKey("āp") == "ap" by {
      assert DropLongA("āp") == "ap";
    }
    assert !HasCaseless(["āp"], "ap") by {
      assert Lower("āp")[0] == 'ā';
    }
    assert ["āp"][..0] == [];
  }

  /** `isFormOfRoot`: the trimmed, lower-cased input matches some form's lower case. */
  predicate IsFormOfRoot(form: string, d: Dhatu)
  {
    HasCaseless(AllForms(d), Lower(Trim(form)))
  }

  /** A root given without surrounding whitespace is a form of itself. */
  lemma RootIsOwnForm(d: Dhatu)
    requires Trim(d.iast) == d.iast
    ensures IsFormOfRoot(d.iast, d)
  {
    assert AllForms(d)[0] in AllForms(d);
  }

  /** Every non-empty derived form without surrounding whitespace is a form of the root. */
  lemma DerivedIsForm(d: Dhatu, df: DerivedForm)
    requires df in d.derivedForms && df.form != "" && Trim(df.form) == df.form
    ensures IsFormOfRoot(df.form, d)
  {
    AllFormsSpec(d);
  }

  /** Surrounding whitespace never matters to the membership test. */
  lemma FormIgnoresPadding(form: string, d: Dhatu)
    ensures IsFormOfRoot(form, d) == IsFormOfRoot(Trim(form), d)
  {
    TrimEnds(form);
    TrimOfTrimmed(Trim(form));
  }

  /** A form of the root is, up to case and padding, the root, a derived form or a derivesTo name. */
  lemma FormOfRootSound(form: string, d: Dhatu)
    requires IsFormOfRoot(form, d)
    ensures exists x :: x in Sources(d) && Lower(x) == Lower(Trim(form))
  {
    AllFormsSpec(d);
    var f :| f in AllForms(d) && Lower(f) == Lower(Trim(form));
    assert f in Sources(d);
  }
}
