/**
 * Sandhi string rewriting of the front end: the vowel and visarga junction
 * rules, Grassmann's and Bartholomae's laws, `applySandhi` and the lookup of
 * a rule by one of its worked examples.
 */
module Sandhi {
  import opened Wrappers
  import opened Text

  // ---------------------------------------------------------------------------
  // Junction characters
  // ---------------------------------------------------------------------------

  /** The vowels the rules test against ("aeiouāēīōū"). */
  const Vowels: string := "aeiouāēīōū"

  /** `a.slice(-1).toLowerCase()`: the lower-cased last character, or "" for "". */
  function LastLower(a: string): (r: string)
    ensures |r| <= 1
    ensures |a| > 0 <==> |r| == 1
  {
    if |a| == 0 then "" else [LowerChar(a[|a| - 1])]
  }

  /** `b[0]?.toLowerCase() ?? ""`: the lower-cased first character, or "". */
  function FirstLower(b: string): (r: string)
    ensures |r| <= 1
    ensures |b| > 0 <==> |r| == 1
  {
    if |b| == 0 then "" else [LowerChar(b[0])]
  }

  /**
   * `"aeiouāēīōū".includes(first)` for a junction string of length at most one:
   * the empty string is contained in every string, so "" counts as a vowel.
   */
  predicate VowelOrEmpty(first: string)
    requires |first| <= 1
  {
    first == "" || first[0] in Vowels
  }

  /** Everything of `a` but its last character (`a.slice(0, -1)`). */
  function Init(a: string): (r: string)
    ensures |a| > 0 ==> |r| == |a| - 1 && a == r + [a[|a| - 1]]
  {
    if |a| == 0 then "" else a[..|a| - 1]
  }

  /** Everything of `b` but its first character (`b.slice(1)`). */
  function Tail(b: string): (r: string)
    ensures |b| > 0 ==> |r| == |b| - 1 && b == [b[0]] + r
  {
    if |b| == 0 then "" else b[1..]
  }

  // ---------------------------------------------------------------------------
  // Vowel sandhi
  // ---------------------------------------------------------------------------

  /** `applyVowelSandhi`: the first vowel rule whose junction matches, or None. */
  function VowelSandhi(a: string, b: string): (r: Option<string>)
    ensures r.Some? ==> |r.value| > 0
  {
    var last := LastLower(a);
    var first := FirstLower(b);
    if last == "a" && first == "a" then Some(Init(a) + "ā" + Tail(b))
    else if (last == "ā" || last == "a") && first == "a" then Some(a + Tail(b))
    else if last == "a" && first == "i" then Some(Init(a) + "e" + Tail(b))
    else if last == "a" && first == "u" then Some(Init(a) + "o" + Tail(b))
    else if last == "ā" && first == "i" then Some(Init(a) + "ai" + Tail(b))
    else if last == "ā" && first == "u" then Some(Init(a) + "au" + Tail(b))
    else if (last == "i" || last == "ī") && VowelOrEmpty(first) then Some(Init(a) + "y" + b)
    else if (last == "u" || last == "ū") && VowelOrEmpty(first) then Some(Init(a) + "v" + b)
    else None
  }

  /**
   * The vowel coalescences of classical grammar the rules implement: final
   * vowel, initial vowel and the single replacement for both.
   */
  const Coalescences: seq<(char, char, string)> :=
    [('a', 'a', "ā"), ('a', 'i', "e"), ('a', 'u', "o"), ('ā', 'i', "ai"), ('ā', 'u', "au")]

  /**
   * Each coalescence replaces word1's last and word2's first character by its
   * single result, the junction being compared case-insensitively.
   */
  lemma VowelCoalescence(a: string, b: string, k: nat)
    requires k < |Coalescences| && |a| > 0 && |b| > 0
    requires LowerChar(a[|a| - 1]) == Coalescences[k].0 && LowerChar(b[0]) == Coalescences[k].1
    ensures VowelSandhi(a, b) == Some(a[..|a| - 1] + Coalescences[k].2 + b[1..])
  {
  }

  /** A long or short a before a keeps word1 whole and drops word2's initial a. */
  lemma LongABeforeA(a: string, b: string)
    requires |a| > 0 && |b| > 0
    requires LowerChar(a[|a| - 1]) == 'ā' && LowerChar(b[0]) == 'a'
    ensures VowelSandhi(a, b) == Some(a + b[1..])
  {
  }

  /** i/ī and u/ū before a vowel turn into y and v; word2 is kept whole. */
  lemma Semivowel(a: string, b: string)
    requires |a| > 0 && |b| > 0 && LowerChar(b[0]) in Vowels
    requires LowerChar(a[|a| - 1]) in "iīuū"
    ensures LowerChar(a[|a| - 1]) in "iī" ==> VowelSandhi(a, b) == Some(a[..|a| - 1] + "y" + b)
    ensures LowerChar(a[|a| - 1]) in "uū" ==> VowelSandhi(a, b) == Some(a[..|a| - 1] + "v" + b)
  {
    var c := LowerChar(a[|a| - 1]);
    assert c == 'i' || c == 'ī' || c == 'u' || c == 'ū';
  }

  /** No vowel rule applies exactly when no junction of the table above matches. */
  lemma VowelSandhiNone(a: string, b: string)
    ensures var last, first := LastLower(a), FirstLower(b);
      VowelSandhi(a, b).None? <==>
        !((last == "a" || last == "ā") && first in ["a", "i", "u"])
        && !((last == "i" || last == "ī" || last == "u" || last == "ū") && VowelOrEmpty(first))
  {
  }

  /** Whether a vowel rule applies does not depend on the case of the junction. */
  lemma VowelSandhiCaseInsensitive(a: string, b: string)
    ensures VowelSandhi(a, b).Some? == VowelSandhi(Lower(a), Lower(b)).Some?
  {
    LowerCharIdempotent(if |a| > 0 then a[|a| - 1] else 'a');
    LowerCharIdempotent(if |b| > 0 then b[0] else 'a');
    assert LastLower(Lower(a)) == LastLower(a);
    assert FirstLower(Lower(b)) == FirstLower(b);
  }

  /**
   * An empty word2 counts as a vowel after a final i or u: "devi" + "" gives
   * "devy", because every string includes the empty string.
   */
  lemma EmptyFollowerSemivowel()
    ensures VowelSandhi("devi", "") == Some("devy")
  {
    assert LowerChar('i') == 'i';
    assert LastLower("devi") == "i";
    assert FirstLower("") == "";
    assert VowelOrEmpty("");
    assert Init("devi") + "y" + "" == "devy";
  }

  // ---------------------------------------------------------------------------
  // Visarga sandhi
  // ---------------------------------------------------------------------------

  /** The initial characters the source lists as voiced ("gghñjḍṇdhnbhmylvśṣs"). */
  const Voiced: string := "gghñjḍṇdhnbhmylvśṣs"

  /** Whether the visarga rule fires: final ḥ/h and a voiced or vowel initial (or none). */
  predicate VisargaApplies(word: string, next: string)
  {
    (EndsWith(word, "ḥ") || EndsWith(word, "h"))
    && var first := FirstLower(next);
       first == "" || first[0] in Voiced || first[0] in Vowels
  }

  /**
   * `applyVisargaSandhi` as written: only the final ḥ/h is replaced by o, so a
   * word in -aḥ keeps its a.
   */
  function VisargaSandhiAsWritten(word: string, next: string): (r: Option<string>)
    ensures r.Some? <==> VisargaApplies(word, next)
  {
    if !VisargaApplies(word, next) then None
    else Some(word[..|word| - 1] + "o" + " " + next)
  }

  /** As written, "rāmaḥ" before "gacchati" gives "rāmao gacchati". */
  lemma VisargaKeepsStemA()
    ensures VisargaSandhiAsWritten("rāmaḥ", "gacchati") == Some("rāmao gacchati")
  {
    assert EndsWith("rāmaḥ", "ḥ");
    assert LowerChar('g') == 'g' && 'g' in Voiced;
    assert VisargaApplies("rāmaḥ", "gacchati");
    assert "rāmaḥ"[..4] + "o" + " " + "gacchati" == "rāmao gacchati";
  }

  /** Whether a word ends in the a-visarga aḥ (or ah), the sequence that becomes o. */
  predicate EndsInAVisarga(word: string)
  {
    EndsWith(word, "aḥ") || EndsWith(word, "ah")
  }

  /**
   * Visarga sandhi with the a of a final aḥ/ah absorbed into the o; any other
   * final ḥ/h is replaced by o as before.
   */
  function VisargaSandhi(word: string, next: string): (r: Option<string>)
    ensures r.Some? <==> VisargaApplies(word, next)
  {
    if !VisargaApplies(word, next) then None
    else if |word| >= 2 && EndsInAVisarga(word) then Some(word[..|word| - 2] + "o " + next)
    else Some(word[..|word| - 1] + "o " + next)
  }

  /**
   * The visarga rule fires exactly when word1 ends in ḥ or h and word2 is empty
   * or starts (case-insensitively) with a listed voiced sound or a vowel; a final
   * aḥ becomes o, and the words are joined with one space.
   */
  lemma VisargaSandhiSpec(word: string, next: string)
    ensures VisargaSandhi(word, next).Some? <==>
      |word| > 0 && word[|word| - 1] in "ḥh"
      && (|next| == 0 || LowerChar(next[0]) in Voiced || LowerChar(next[0]) in Vowels)
    ensures VisargaSandhi(word, next).Some? && |word| >= 2 && word[|word| - 2] == 'a' ==>
      VisargaSandhi(word, next).value == word[..|word| - 2] + "o " + next
    ensures VisargaSandhi(word, next).Some? && !(|word| >= 2 && word[|word| - 2] == 'a') ==>
      VisargaSandhi(word, next).value == word[..|word| - 1] + "o " + next
  {
    VisargaAppliesIff(word, next);
    if VisargaApplies(word, next) {
      VisargaValue(word, next);
    }
  }

  /** When the rule fires, a final aḥ/ah loses its a and any other final ḥ/h alone becomes o. */
  lemma VisargaValue(word: string, next: string)
    requires VisargaApplies(word, next)
    ensures |word| >= 2 && word[|word| - 2] == 'a' ==>
      VisargaSandhi(word, next) == Some(word[..|word| - 2] + "o " + next)
    ensures !(|word| >= 2 && word[|word| - 2] == 'a') ==>
      VisargaSandhi(word, next) == Some(word[..|word| - 1] + "o " + next)
  {
    VisargaAppliesIff(word, next);
    EndsWithTwo(word, 'a', 'ḥ');
    EndsWithTwo(word, 'a', 'h');
    assert "aḥ" == ['a', 'ḥ'] && "ah" == ['a', 'h'];
    assert EndsInAVisarga(word) <==> |word| >= 2 && word[|word| - 2] == 'a';
  }

  /** The visarga rule's guard in terms of the last character of word1 and the first of word2. */
  lemma VisargaAppliesIff(word: string, next: string)
    ensures VisargaApplies(word, next) <==>
      |word| > 0 && word[|word| - 1] in "ḥh"
      && (|next| == 0 || LowerChar(next[0]) in Voiced || LowerChar(next[0]) in Vowels)
  {
    EndsWithOne(word, 'ḥ');
    EndsWithOne(word, 'h');
  }

  lemma EndsWithOne(s: string, c: char)
    ensures EndsWith(s, [c]) <==> |s| > 0 && s[|s| - 1] == c
  {
    if |s| > 0 {
      assert s[|s| - 1..] == [s[|s| - 1]];
    }
  }

  lemma EndsWithTwo(s: string, a: char, c: char)
    ensures EndsWith(s, [a, c]) <==> |s| >= 2 && s[|s| - 2] == a && s[|s| - 1] == c
  {
    if |s| >= 2 {
      assert s[|s| - 2..] == [s[|s| - 2], s[|s| - 1]];
    }
  }

  /** Before a voiceless stop (k, c, ṭ, t, p) the visarga rule does not apply. */
  lemma VisargaBeforeVoicelessStop(word: string, next: string)
    requires |next| > 0 && next[0] in "kcṭtp"
    ensures VisargaSandhi(word, next).None? && VisargaSandhiAsWritten(word, next).None?
  {
    var c := next[0];
    assert c == 'k' || c == 'c' || c == 'ṭ' || c == 't' || c == 'p';
    assert LowerChar(c) == c;
    assert c !in Voiced && c !in Vowels;
    assert !VisargaApplies(word, next);
  }

  /** "rāmaḥ" before "gacchati" gives "rāmo gacchati". */
  lemma VisargaExample()
    ensures VisargaSandhi("rāmaḥ", "gacchati") == Some("rāmo gacchati")
  {
    assert EndsWith("rāmaḥ", "ḥ") && EndsWith("rāmaḥ", "aḥ");
    assert LowerChar('g') == 'g' && 'g' in Voiced;
    assert VisargaApplies("rāmaḥ", "gacchati");
    assert "rāmaḥ"[..3] + "o " + "gacchati" == "rāmo gacchati";
  }

  // ---------------------------------------------------------------------------
  // applySandhi
  // ---------------------------------------------------------------------------

  /** The joined text and the id of the rule that produced it, if any. */
  datatype SandhiResult = SandhiResult(result: string, ruleId: Option<string>)

  /**
   * `applySandhi` as written: vowel rules first, then the as-written visarga
   * rule (trimmed), else a plain space.
   */
  function ApplySandhi(word1: string, word2: string): (r: SandhiResult)
  {
    var v := VowelSandhi(word1, word2);
    if v.Some? && v.value != "" then SandhiResult(v.value, Some("vowel-sandhi"))
    else
      var vis := VisargaSandhiAsWritten(word1, word2);
      if vis.Some? && vis.value != "" then SandhiResult(Trim(vis.value), Some("visarga-sandhi"))
      else SandhiResult(word1 + " " + word2, None)
  }

  /**
   * Vowel sandhi takes precedence, visarga sandhi comes second and its text is
   * trimmed, and with neither the words are joined by a space with no rule id.
   */
  lemma ApplySandhiSpec(word1: string, word2: string)
    ensures var r := ApplySandhi(word1, word2);
      && (VowelSandhi(word1, word2).Some? ==>
            r == SandhiResult(VowelSandhi(word1, word2).value, Some("vowel-sandhi")))
      && (VowelSandhi(word1, word2).None? && VisargaSandhiAsWritten(word1, word2).Some? ==>
            r == SandhiResult(Trim(VisargaSandhiAsWritten(word1, word2).value), Some("visarga-sandhi")))
      && (r.ruleId.None? <==> VowelSandhi(word1, word2).None? && !VisargaApplies(word1, word2))
      && (r.ruleId.None? ==> r.result == word1 + " " + word2)
  {
  }

  /** The same join with the corrected visarga rule, which absorbs the a of aḥ. */
  function ApplySandhiCorrected(word1: string, word2: string): (r: SandhiResult)
  {
    var v := VowelSandhi(word1, word2);
    if v.Some? && v.value != "" then SandhiResult(v.value, Some("vowel-sandhi"))
    else
      var vis := VisargaSandhi(word1, word2);
      if vis.Some? && vis.value != "" then SandhiResult(Trim(vis.value), Some("visarga-sandhi"))
      else SandhiResult(word1 + " " + word2, None)
  }

  /**
   * The corrected join differs from the as-written one only in the visarga
   * text: the same rule fires, and vowel sandhi and the plain join agree.
   */
  lemma ApplySandhiCorrectedSpec(word1: string, word2: string)
    ensures var r := ApplySandhiCorrected(word1, word2);
      && r.ruleId == ApplySandhi(word1, word2).ruleId
      && (r.ruleId != Some("visarga-sandhi") ==> r == ApplySandhi(word1, word2))
      && (VowelSandhi(word1, word2).None? && VisargaApplies(word1, word2) ==>
            r == SandhiResult(Trim(VisargaSandhi(word1, word2).value), Some("visarga-sandhi")))
  {
  }

  // ---------------------------------------------------------------------------
  // Grassmann's law
  // ---------------------------------------------------------------------------

  /** The aspirate onsets checked, in source order. */
  const Aspirates: seq<string> := ["kh", "gh", "ch", "jh", "ṭh", "ḍh", "th", "dh", "ph", "bh"]

  /** A phoneme whose lower-cased text starts with an aspirate. */
  predicate IsAspirate(p: string)
  {
    exists h :: h in Aspirates && StartsWith(Lower(p), h)
  }

  /** Every aspirate onset is two characters, the second being h. */
  lemma AspiratesEndInH(h: string)
    requires h in Aspirates
    ensures |h| == 2 && h[1] == 'h'
  {
  }

  /** `s.replace(/c/g, "")`: every occurrence of `c` removed. */
  function RemoveAll(s: string, c: char): (r: string)
    ensures c !in r
    ensures |r| <= |s|
    ensures forall x :: x in r ==> x in s
  {
    if s == [] then [] else (if s[0] == c then [] else [s[0]]) + RemoveAll(s[1..], c)
  }

  /** The de-aspirated phoneme: every h removed, then ṭ→t and ḍ→d. */
  function Deaspirate(p: string): (r: string)
  {
    ReplaceChar(ReplaceChar(RemoveAll(p, 'h'), 'ṭ', 't'), 'ḍ', 'd')
  }

  /** De-aspiration leaves no h, ṭ or ḍ and never lengthens the phoneme. */
  lemma DeaspirateSpec(p: string)
    ensures 'h' !in Deaspirate(p) && 'ṭ' !in Deaspirate(p) && 'ḍ' !in Deaspirate(p)
    ensures |Deaspirate(p)| <= |p|
    ensures forall c :: c in Deaspirate(p) && c != 't' && c != 'd' ==> c in p
  {
    var r0 := RemoveAll(p, 'h');
    var r1 := ReplaceChar(r0, 'ṭ', 't');
    var r2 := ReplaceChar(r1, 'ḍ', 'd');
    assert forall i :: 0 <= i < |r2| ==> r2[i] != 'h' && r2[i] != 'ṭ' && r2[i] != 'ḍ' by {
      forall i | 0 <= i < |r2|
        ensures r2[i] != 'h' && r2[i] != 'ṭ' && r2[i] != 'ḍ'
      {
        assert r0[i] in r0;
      }
    }
    forall c | c in r2 && c != 't' && c != 'd'
      ensures c in p
    {
      var i :| 0 <= i < |r2| && r2[i] == c;
      assert r0[i] in r0;
    }
  }

  /** Without an upper-case H in it, a de-aspirated phoneme is no aspirate. */
  lemma DeaspiratedIsPlain(p: string)
    requires 'H' !in p
    ensures !IsAspirate(Deaspirate(p))
  {
    var d := Deaspirate(p);
    DeaspirateSpec(p);
    if IsAspirate(d) {
      var h :| h in Aspirates && StartsWith(Lower(d), h);
      AspiratesEndInH(h);
      assert false;
    }
  }

  /** Whether any phoneme of `ps` is an aspirate (the `foundFirst` flag). */
  predicate HasAspirate(ps: seq<string>)
  {
    exists j :: 0 <= j < |ps| && IsAspirate(ps[j])
  }

  /** The flag after one more phoneme. */
  lemma HasAspirateStep(ps: seq<string>, i: nat)
    requires i < |ps|
    ensures HasAspirate(ps[..i + 1]) <==> HasAspirate(ps[..i]) || IsAspirate(ps[i])
  {
    assert ps[..i + 1][i] == ps[i];
    if HasAspirate(ps[..i + 1]) && !IsAspirate(ps[i]) {
      var j :| 0 <= j < i + 1 && IsAspirate(ps[..i + 1][j]);
      assert ps[..i][j] == ps[..i + 1][j];
    }
    if HasAspirate(ps[..i]) {
      var j :| 0 <= j < i && IsAspirate(ps[..i][j]);
      assert ps[..i + 1][j] == ps[..i][j];
    }
  }

  /** The phoneme at `k` after Grassmann's law: de-aspirated when an aspirate came before. */
  function GrassmannAt(ps: seq<string>, k: nat): (r: string)
    requires k < |ps|
  {
    if IsAspirate(ps[k]) && HasAspirate(ps[..k]) then Deaspirate(ps[k]) else ps[k]
  }

  /** The result of Grassmann's law as a whole sequence. */
  function Grassmann(ps: seq<string>): (r: seq<string>)
    ensures |r| == |ps|
    ensures forall k :: 0 <= k < |ps| ==> r[k] == GrassmannAt(ps, k)
  {
    seq(|ps|, k requires 0 <= k < |ps| => GrassmannAt(ps, k))
  }

  /** `applyGrassmannsLaw`: one pass that threads the `foundFirst` flag. */
  method ApplyGrassmannsLaw(phonemes: seq<string>) returns (out: seq<string>)
    ensures out == Grassmann(phonemes)
  {
    var foundFirst := false;
    out := [];
    for i := 0 to |phonemes|
      invariant |out| == i
      invariant forall k :: 0 <= k < i ==> out[k] == GrassmannAt(phonemes, k)
      invariant foundFirst == HasAspirate(phonemes[..i])
    {
      var p := phonemes[i];
      var isAspirate := IsAspirate(p);
      var q := p;
      if isAspirate && foundFirst {
        q := Deaspirate(p);
      } else if isAspirate {
        foundFirst := true;
      }
      assert q == GrassmannAt(phonemes, i);
      HasAspirateStep(phonemes, i);
      out := out + [q];
    }
  }

  /**
   * Grassmann's law keeps every phoneme up to and including the first aspirate,
   * and de-aspirates every aspirate after it.
   */
  lemma GrassmannSpec(ps: seq<string>, first: nat)
    requires first < |ps| && IsAspirate(ps[first])
    requires forall j :: 0 <= j < first ==> !IsAspirate(ps[j])
    ensures forall k :: 0 <= k <= first ==> Grassmann(ps)[k] == ps[k]
    ensures forall k :: first < k < |ps| && IsAspirate(ps[k]) ==> Grassmann(ps)[k] == Deaspirate(ps[k])
    ensures forall k :: 0 <= k < |ps| && !IsAspirate(ps[k]) ==> Grassmann(ps)[k] == ps[k]
  {
    forall k | first < k < |ps| && IsAspirate(ps[k])
      ensures HasAspirate(ps[..k])
    {
      assert ps[..k][first] == ps[first];
    }
  }

  /**
   * With no upper-case H in the input, at most one aspirate survives: the
   * first one.
   */
  lemma GrassmannOneAspirate(ps: seq<string>, i: nat, j: nat)
    requires forall k :: 0 <= k < |ps| ==> 'H' !in ps[k]
    requires i < j < |ps|
    ensures !(IsAspirate(Grassmann(ps)[i]) && IsAspirate(Grassmann(ps)[j]))
  {
    var r := Grassmann(ps);
    if IsAspirate(r[i]) && IsAspirate(r[j]) {
      if IsAspirate(ps[i]) && HasAspirate(ps[..i]) {
        DeaspiratedIsPlain(ps[i]);
        assert false;
      }
      if IsAspirate(ps[j]) && HasAspirate(ps[..j]) {
        DeaspiratedIsPlain(ps[j]);
        assert false;
      }
      assert false;
    }
  }

  // ---------------------------------------------------------------------------
  // Bartholomae's law
  // ---------------------------------------------------------------------------

  /** JavaScript's `\s`: the common whitespace set plus the byte-order mark. */
  predicate JsSpace(c: char)
  {
    IsSpace(c) || c == '\U{FEFF}'
  }

  /**
   * A case-insensitive match of an ASCII lower-case literal: character c
   * matches letter x exactly when c lower-cases to x.
   */
  predicate LiteralAt(s: string, i: nat, lit: string)
  {
    i + |lit| <= |s| && forall k :: 0 <= k < |lit| ==> LowerChar(s[i + k]) == lit[k]
  }

  /** The index after the whitespace run starting at `i`. */
  function SkipSpace(s: string, i: nat): (j: nat)
    requires i <= |s|
    ensures i <= j <= |s|
    ensures forall k :: i <= k < j ==> JsSpace(s[k])
    ensures j == |s| || !JsSpace(s[j])
    decreases |s| - i
  {
    if i < |s| && JsSpace(s[i]) then SkipSpace(s, i + 1) else i
  }

  /** One replacement `{ from: /before\s*\+\s*after/i, to }`. */
  datatype Pattern = Pattern(before: string, after: string, to: string)

  /**
   * Where a match of `before \s* + \s* after` starting at `i` ends. Both `\s*`
   * runs are maximal: neither '+' nor the first letter of `after` is
   * whitespace, so the greedy run is the only one that can succeed.
   */
  function MatchEnd(s: string, i: nat, p: Pattern): (r: Option<nat>)
    ensures r.Some? ==> i + |p.before| < r.value <= |s|
  {
    if !LiteralAt(s, i, p.before) then None
    else
      var j := SkipSpace(s, i + |p.before|);
      if j < |s| && s[j] == '+' then
        var k := SkipSpace(s, j + 1);
        if LiteralAt(s, k, p.after) then Some(k + |p.after|) else None
      else None
  }

  /** The first position from `i` to `n` at which `at` gives a value, with that value. */
  function FirstAt<A>(at: nat -> Option<A>, i: nat, n: nat): (r: Option<(nat, A)>)
    ensures r.Some? ==> i <= r.value.0 <= n && at(r.value.0) == Some(r.value.1)
    ensures r.Some? ==> forall k :: i <= k < r.value.0 ==> at(k).None?
    ensures r.None? ==> forall k :: i <= k <= n ==> at(k).None?
    decreases n - i
  {
    if i > n then None
    else if at(i).Some? then Some((i, at(i).value))
    else FirstAt(at, i + 1, n)
  }

  /** The leftmost match at or after `i`, as (start, end). */
  function FirstMatch(s: string, i: nat, p: Pattern): (r: Option<(nat, nat)>)
    ensures r.Some? ==> i <= r.value.0 < r.value.1 <= |s| && MatchEnd(s, r.value.0, p) == Some(r.value.1)
    ensures r.Some? ==> forall k :: i <= k < r.value.0 ==> MatchEnd(s, k, p).None?
    ensures r.None? ==> forall k :: i <= k <= |s| ==> MatchEnd(s, k, p).None?
  {
    var at := k => MatchEnd(s, k, p);
    assert forall k :: at(k) == MatchEnd(s, k, p);
    FirstAt(at, i, |s|)
  }

  /** `s.replace(regex, to)` without the g flag: only the leftmost match is replaced. */
  function ReplaceFirst(s: string, p: Pattern): (r: string)
  {
    match FirstMatch(s, 0, p)
    case None => s
    case Some((start, end)) => s[..start] + p.to + s[end..]
  }

  /** The three patterns, in the order they are applied. */
  const Patterns: seq<Pattern> :=
    [Pattern("budh", "ta", "buddha"), Pattern("dh", "t", "ddh"), Pattern("gh", "t", "gd")]

  /** The patterns `ps` applied in turn. */
  function ReplaceAll(s: string, ps: seq<Pattern>): string
    decreases |ps|
  {
    if ps == [] then s else ReplaceAll(ReplaceFirst(s, ps[0]), ps[1..])
  }

  /** `applyBartholomaesLaw`: the replacement loop over the three patterns. */
  method ApplyBartholomaesLaw(word: string) returns (result: string)
    ensures result == ReplaceAll(word, Patterns)
  {
    result := word;
    for i := 0 to |Patterns|
      invariant ReplaceAll(word, Patterns) == ReplaceAll(result, Patterns[i..])
    {
      assert Patterns[i..][1..] == Patterns[i + 1..];
      result := ReplaceFirst(result, Patterns[i]);
    }
  }

  /** Every match contains a '+'. */
  lemma MatchHasPlus(s: string, i: nat, p: Pattern)
    requires MatchEnd(s, i, p).Some?
    ensures '+' in s
  {
    var j := SkipSpace(s, i + |p.before|);
    assert s[j] == '+';
  }

  /** A word with no '+' is left unchanged by Bartholomae's law. */
  lemma {:induction false} NoPlusUnchanged(s: string, ps: seq<Pattern>)
    requires '+' !in s
    ensures ReplaceAll(s, ps) == s
    decreases |ps|
  {
    if ps != [] {
      var m := FirstMatch(s, 0, ps[0]);
      if m.Some? {
        MatchHasPlus(s, m.value.0, ps[0]);
      }
      NoPlusUnchanged(s, ps[1..]);
    }
  }

  /** √budh + ta gives buddha; the later patterns find no '+' left to match. */
  lemma BartholomaeBudh()
    ensures ReplaceAll("budh + ta", Patterns) == "buddha"
  {
    var s := "budh + ta";
    assert LiteralAt(s, 0, "budh");
    assert SkipSpace(s, 4) == 5;
    assert s[5] == '+';
    assert SkipSpace(s, 6) == 7;
    assert LiteralAt(s, 7, "ta");
    assert MatchEnd(s, 0, Patterns[0]) == Some(9);
    assert FirstMatch(s, 0, Patterns[0]) == Some((0, 9));
    assert ReplaceFirst(s, Patterns[0]) == "buddha";
    NoPlusUnchanged("buddha", Patterns[1..]);
  }

  /** The replacement text of a match stands where the match stood. */
  lemma ReplaceFirstAt(s: string, p: Pattern, start: nat, end: nat)
    requires FirstMatch(s, 0, p) == Some((start, end))
    ensures ReplaceFirst(s, p) == s[..start] + p.to + s[end..]
    ensures |ReplaceFirst(s, p)| == |s| - (end - start) + |p.to|
  {
  }

  // ---------------------------------------------------------------------------
  // Rule lookup by example
  // ---------------------------------------------------------------------------

  /** One worked example of a rule: two input words and the joined output. */
  datatype Example = Example(input: (string, string), output: string, annotation: string)

  /** A sandhi rule of the rules data. */
  datatype SandhiRule = SandhiRule(
    id: string, name: string, paniniReference: Option<string>, category: string,
    signature: string, mechanism: string, examples: seq<Example>,
    dependsOn: seq<string>, enables: seq<string>)

  /** The two input words joined by one space, the form examples are compared in. */
  function Combined(input: (string, string)): string
  {
    input.0 + " " + input.1
  }

  predicate ExampleMatches(ex: Example, combined: string, output: string)
  {
    Combined(ex.input) == combined && ex.output == output
  }

  predicate RuleMatches(rule: SandhiRule, combined: string, output: string)
  {
    exists ex :: ex in rule.examples && ExampleMatches(ex, combined, output)
  }

  /** The first rule with a matching example. */
  function FirstRule(rules: seq<SandhiRule>, combined: string, output: string): (r: Option<SandhiRule>)
    ensures r.Some? ==> r.value in rules && RuleMatches(r.value, combined, output)
    ensures r.None? <==> forall rule :: rule in rules ==> !RuleMatches(rule, combined, output)
  {
    if rules == [] then None
    else if RuleMatches(rules[0], combined, output) then Some(rules[0])
    else FirstRule(rules[1..], combined, output)
  }

  /** A matching rule preceded only by rules without a match is the one found. */
  lemma {:induction false} FirstRuleAt(rules: seq<SandhiRule>, i: nat, combined: string, output: string)
    requires i < |rules| && RuleMatches(rules[i], combined, output)
    requires forall j :: 0 <= j < i ==> !RuleMatches(rules[j], combined, output)
    ensures FirstRule(rules, combined, output) == Some(rules[i])
  {
    if i > 0 {
      FirstRuleAt(rules[1..], i - 1, combined, output);
    }
  }

  /** `findMatchingRule`: scan rules, and within each rule its examples, in order. */
  method FindMatchingRule(input: (string, string), output: string, rules: seq<SandhiRule>)
    returns (r: Option<SandhiRule>)
    ensures r == FirstRule(rules, Combined(input), output)
  {
    var combined := Combined(input);
    for i := 0 to |rules|
      invariant forall j :: 0 <= j < i ==> !RuleMatches(rules[j], combined, output)
    {
      var examples := rules[i].examples;
      for k := 0 to |examples|
        invariant forall m :: 0 <= m < k ==> !ExampleMatches(examples[m], combined, output)
      {
        if Combined(examples[k].input) == combined && examples[k].output == output {
          assert examples[k] in rules[i].examples;
          FirstRuleAt(rules, i, combined, output);
          return Some(rules[i]);
        }
      }
    }
    return None;
  }

  /**
   * Inputs are compared only after joining with a space, so ("a b", "c") and
   * ("a", "b c") find the same rule.
   */
  lemma CombinedConflates(rules: seq<SandhiRule>, output: string)
    ensures FirstRule(rules, Combined(("a b", "c")), output) == FirstRule(rules, Combined(("a", "b c")), output)
  {
    assert Combined(("a b", "c")) == Combined(("a", "b c"));
  }
}
