/**
 * The conceptual assessor of the tutor: a rubric of criteria is checked by
 * a language model that answers Y or N per line, or, when no model can be
 * reached, by a keyword heuristic. The answer passes when the share of
 * criteria met reaches the threshold (0.7 by default).
 */
module TutorConceptual {
  import opened Wrappers
  import opened Text

  /** What the model call gave: no API key configured, a call that raised, or the reply's text. */
  datatype LlmAccess = NoKey | CallFailed | Replied(content: string)

  /** The `meta` dictionary: empty, or the counts and ratio (with `heuristic` set on the fallback). */
  datatype ConceptMeta = NoMeta | Rated(met: nat, total: nat, ratio: real, heuristic: bool)

  datatype Outcome = Outcome(passed: bool, feedback: string, meta: ConceptMeta)

  /** The default `pass_threshold`. */
  const DefaultThreshold: real := 0.7

  // ---------------------------------------------------------------------------
  // The keyword heuristic

  /** A criterion is met when one of its words longer than three characters occurs in the lower-cased answer. */
  predicate Met(criterion: string, lowerAnswer: string)
  {
    var ws := Words(Lower(criterion));
    exists i :: 0 <= i < |ws| && |ws[i]| > 3 && Contains(lowerAnswer, ws[i])
  }

  /** How many criteria are met. */
  function CountMet(criteria: seq<string>, lowerAnswer: string): (n: nat)
    ensures n <= |criteria|
  {
    if criteria == [] then 0
    else CountMet(criteria[..|criteria| - 1], lowerAnswer) + (if Met(criteria[|criteria| - 1], lowerAnswer) then 1 else 0)
  }

  /** `hits / total`, and 0.0 for an empty rubric. */
  function Ratio(hits: nat, total: nat): real
  {
    if total == 0 then 0.0 else hits as real / total as real
  }

  /** A share of met criteria lies in [0, 1], and is 1 exactly when all are met. */
  lemma RatioBounds(hits: nat, total: nat)
    requires hits <= total
    ensures 0.0 <= Ratio(hits, total) <= 1.0
    ensures total > 0 ==> (Ratio(hits, total) == 1.0 <==> hits == total)
  {
    if total > 0 {
      assert hits as real <= total as real;
      if Ratio(hits, total) == 1.0 {
        assert hits as real == Ratio(hits, total) * total as real;
      }
    }
  }

  /** The failure message of the heuristic. */
  function HeuristicFailText(hits: nat, total: nat): string
  {
    "Heuristic: met " + NatToString(hits) + "/" + NatToString(total) + " criteria. Use voice/LLM for proper assessment."
  }

  /** `_heuristic_check`. */
  function Heuristic(answer: string, criteria: seq<string>, threshold: real): Outcome
  {
    var hits := CountMet(criteria, Lower(answer));
    var total := |criteria|;
    var ratio := Ratio(hits, total);
    Outcome(ratio >= threshold,
      if ratio >= threshold then "Your explanation touches on the key points." else HeuristicFailText(hits, total),
      Rated(hits, total, ratio, true))
  }

  /** The criterion loop of `_heuristic_check`. */
  method HeuristicCheck(answer: string, criteria: seq<string>, threshold: real) returns (o: Outcome)
    ensures o == Heuristic(answer, criteria, threshold)
  {
    var lower := Lower(answer);
    var hits := 0;
    for i := 0 to |criteria|
      invariant hits == CountMet(criteria[..i], lower)
    {
      assert criteria[..i + 1][..i] == criteria[..i];
      var found := CriterionMet(criteria[i], lower);
      if found {
        hits := hits + 1;
      }
    }
    assert criteria[..|criteria|] == criteria;
    var total := |criteria|;
    var ratio := if total != 0 then hits as real / total as real else 0.0;
    var meta := Rated(hits, total, ratio, true);
    if ratio >= threshold {
      o := Outcome(true, "Your explanation touches on the key points.", meta);
    } else {
      o := Outcome(false, HeuristicFailText(hits, total), meta);
    }
  }

  /** The word loop for one criterion: does a word longer than three characters occur in the answer? */
  method CriterionMet(criterion: string, lower: string) returns (found: bool)
    ensures found == Met(criterion, lower)
  {
    var ws := Words(Lower(criterion));
    found := false;
    for j := 0 to |ws|
      invariant found <==> exists k :: 0 <= k < j && |ws[k]| > 3 && Contains(lower, ws[k])
    {
      if |ws[j]| > 3 && Contains(lower, ws[j]) {
        found := true;
      }
    }
  }

  /** The heuristic's ratio is a share: between 0 and 1, and 1 exactly when every criterion is met. */
  lemma HeuristicRatio(answer: string, criteria: seq<string>, threshold: real)
    requires criteria != []
    ensures var m := Heuristic(answer, criteria, threshold).meta;
      m.Rated? && m.heuristic && m.total == |criteria| && 0.0 <= m.ratio <= 1.0
      && (m.ratio == 1.0 <==> m.met == |criteria|)
  {
    RatioBounds(CountMet(criteria, Lower(answer)), |criteria|);
  }

  /** A substring of a string is a substring of any extension of it. */
  lemma {:induction false} ContainsExtended(s: string, t: string, w: string)
    requires Contains(s, w)
    ensures Contains(s + t, w)
  {
    if StartsWith(s, w) {
      assert (s + t)[..|w|] == s[..|w|];
    } else {
      assert (s + t)[1..] == s[1..] + t;
      ContainsExtended(s[1..], t, w);
    }
  }

  /** Saying more never loses a criterion: the count of met criteria of an extended answer is at least as high. */
  lemma {:induction false} CountMetExtended(criteria: seq<string>, answer: string, more: string)
    ensures CountMet(criteria, Lower(answer)) <= CountMet(criteria, Lower(answer + more))
  {
    if criteria != [] {
      CountMetExtended(criteria[..|criteria| - 1], answer, more);
      var c := criteria[|criteria| - 1];
      assert Lower(answer + more) == Lower(answer) + Lower(more);
      if Met(c, Lower(answer)) {
        var ws := Words(Lower(c));
        var i :| 0 <= i < |ws| && |ws[i]| > 3 && Contains(Lower(answer), ws[i]);
        ContainsExtended(Lower(answer), Lower(more), ws[i]);
      }
    }
  }

  /** A criterion with no word longer than three characters is never met by the heuristic. */
  lemma ShortWordsNeverMet(criterion: string, answer: string)
    requires forall w :: w in Words(Lower(criterion)) ==> |w| <= 3
    ensures !Met(criterion, Lower(answer))
  {
  }

  // ---------------------------------------------------------------------------
  // The model's Y/N reply

  /** The characters at which Python's `str.splitlines` breaks a line. */
  predicate IsLineBreak(c: char)
  {
    c == '\n' || c == '\r' || c == '\U{000B}' || c == '\U{000C}' || c == '\U{001C}' || c == '\U{001D}'
    || c == '\U{001E}' || c == '\U{0085}' || c == '\U{2028}' || c == '\U{2029}'
  }

  /**
   * The pieces of `s` between line breaks. It differs from `splitlines` only
   * in the empty pieces it keeps (between \r and \n, after a final break),
   * which the stripped-and-non-empty filter removes anyway.
   */
  function Pieces(s: string): (ls: seq<string>)
    ensures |ls| > 0
    ensures forall i :: 0 <= i < |ls| ==> forall j :: 0 <= j < |ls[i]| ==> !IsLineBreak(ls[i][j])
  {
    if s == [] then [[]]
    else if IsLineBreak(s[0]) then [[]] + Pieces(s[1..])
    else
      var rest := Pieces(s[1..]);
      [[s[0]] + rest[0]] + rest[1..]
  }

  /** `[l.strip() for l in lines if l.strip()]` (the upper-casing only matters for the leading Y, see `SaysYes`). */
  function NonEmpty(ls: seq<string>): (r: seq<string>)
    ensures forall i :: 0 <= i < |r| ==> r[i] != [] && !IsSpace(r[i][0])
  {
    if ls == [] then []
    else
      TrimEnds(ls[0]);
      (if Trim(ls[0]) != [] then [Trim(ls[0])] else []) + NonEmpty(ls[1..])
  }

  /** The stripped non-empty lines of the reply. */
  function ReplyLines(content: string): seq<string>
  {
    NonEmpty(Pieces(content))
  }

  /** `l.upper().startswith("Y")`: only `y` and `Y` upper-case to a leading `Y`. */
  predicate SaysYes(l: string)
  {
    |l| > 0 && UpperChar(l[0]) == 'Y'
  }

  /** How many lines say Y. */
  function CountYes(lines: seq<string>): (n: nat)
    ensures n <= |lines|
  {
    if lines == [] then 0 else (if SaysYes(lines[0]) then 1 else 0) + CountYes(lines[1..])
  }

  /** The criteria paired, in order, with a line that does not say Y. */
  function Missed(criteria: seq<string>, lines: seq<string>): (r: seq<string>)
    ensures |r| <= |criteria| && |r| <= |lines|
  {
    if criteria == [] || lines == [] then []
    else (if SaysYes(lines[0]) then [] else [criteria[0]]) + Missed(criteria[1..], lines[1..])
  }

  function Min(a: nat, b: nat): nat { if a < b then a else b }

  /** `min(len(criteria), len(lines)) or len(criteria)`. */
  function Total(criteria: seq<string>, lines: seq<string>): (t: nat)
    ensures criteria != [] ==> t > 0
  {
    if Min(|criteria|, |lines|) != 0 then Min(|criteria|, |lines|) else |criteria|
  }

  /** The Y count as written: every line, paired with a criterion or not. */
  function HitsAsWritten(criteria: seq<string>, lines: seq<string>): nat
  {
    CountYes(lines)
  }

  /** The Y count as intended: only the lines paired with a criterion. */
  function Hits(criteria: seq<string>, lines: seq<string>): (n: nat)
    ensures n <= Total(criteria, lines)
  {
    CountYes(lines[..Min(|criteria|, |lines|)])
  }

  /** The failure message of a parsed reply: the counts, then the criteria paired with an N. */
  function ReplyFailText(criteria: seq<string>, lines: seq<string>, hits: nat, total: nat): string
  {
    "Review the concept. You met " + NatToString(hits) + "/" + NatToString(total)
    + " criteria. Try including: " + Join(Missed(criteria, lines), ", ")
  }

  /** The outcome of a parsed reply, for a given way of counting the hits. */
  function FromReply(criteria: seq<string>, lines: seq<string>, hits: nat, threshold: real): Outcome
  {
    var total := Total(criteria, lines);
    var ratio := Ratio(hits, total);
    Outcome(ratio >= threshold,
      if ratio >= threshold then "Your explanation demonstrates understanding." else ReplyFailText(criteria, lines, hits, total),
      Rated(hits, total, ratio, false))
  }

  /**
   * As written, extra lines in the reply count: two criteria both answered N,
   * followed by two stray Y lines, give a ratio of 1.0 and a pass.
   */
  lemma ReplyLinesOfExample()
    ensures ReplyLines("N\nN\nY\nY") == ["N", "N", "Y", "Y"]
  {
    PiecesOfReply();
    NonEmptyOfFour('N', 'N', 'Y', 'Y');
  }

  /** Four one-character lines, none a space, are all kept. */
  lemma NonEmptyOfFour(a: char, b: char, c: char, d: char)
    requires !IsSpace(a) && !IsSpace(b) && !IsSpace(c) && !IsSpace(d)
    ensures NonEmpty([[a], [b], [c], [d]]) == [[a], [b], [c], [d]]
  {
    NonEmptyCons([d], []);
    NonEmptyCons([c], [[d]]);
    NonEmptyCons([b], [[c], [d]]);
    NonEmptyCons([a], [[b], [c], [d]]);
  }

  /** A one-letter line that is not a space is kept as it is. */
  lemma NonEmptyCons(x: string, rest: seq<string>)
    requires |x| == 1 && !IsSpace(x[0])
    ensures NonEmpty([x] + rest) == [x] + NonEmpty(rest)
  {
    TrimOfTrimmed(x);
    assert ([x] + rest)[1..] == rest;
  }

  lemma StrayLinesPassAsWritten()
    ensures Conceptual("", ["uses sandhi", "names the root"], Replied("N\nN\nY\nY"), DefaultThreshold).passed
  {
    ReplyLinesOfExample();
    var lines := ["N", "N", "Y", "Y"];
    CountYesOfExample();
    AllMetPasses(["uses sandhi", "names the root"], lines, 2);
  }

  /** Two N lines then two Y lines hold two Ys. */
  lemma CountYesOfExample()
    ensures CountYes(["N", "N", "Y", "Y"]) == 2
  {
    var n, y := "N", "Y";
    var l2 := [y, y];
    var l3 := [n] + l2;
    var lines := [n] + l3;
    assert SaysYes(y) && !SaysYes(n);
    assert CountYes(l2) == 2 by { assert l2[1..] == [y]; assert [y][1..] == []; }
    assert CountYes(l3) == 2 by { assert l3[1..] == l2; }
    assert CountYes(lines) == 2 by { assert lines[1..] == l3; }
    assert lines == ["N", "N", "Y", "Y"];
  }

  /** A parsed reply whose hits reach the total passes the default threshold. */
  lemma AllMetPasses(criteria: seq<string>, lines: seq<string>, hits: nat)
    requires hits == Total(criteria, lines) > 0
    ensures FromReply(criteria, lines, hits, DefaultThreshold).passed
  {
    RatioBounds(hits, hits);
    assert FromReply(criteria, lines, hits, DefaultThreshold).passed == (Ratio(hits, hits) >= DefaultThreshold);
  }

  /** A line without breaks, then a break, then the rest: the line is the first piece. */
  lemma {:induction false} PiecesCons(l: string, br: char, rest: string)
    requires forall j :: 0 <= j < |l| ==> !IsLineBreak(l[j])
    requires IsLineBreak(br)
    ensures Pieces(l + [br] + rest) == [l] + Pieces(rest)
  {
    if l == [] {
      assert l + [br] + rest == [br] + rest;
      assert ([br] + rest)[1..] == rest;
    } else {
      PiecesCons(l[1..], br, rest);
      assert (l + [br] + rest)[1..] == l[1..] + [br] + rest;
      assert [l[0]] + l[1..] == l;
    }
  }

  /** A line without breaks is one piece. */
  lemma {:induction false} PiecesSingle(l: string)
    requires forall j :: 0 <= j < |l| ==> !IsLineBreak(l[j])
    ensures Pieces(l) == [l]
  {
    if l != [] {
      PiecesSingle(l[1..]);
      assert [l[0]] + l[1..] == l;
    }
  }

  /** One-character lines joined by line feeds split into those lines: two, three and four of them. */
  lemma PiecesOfTwo(c: char, d: char)
    requires !IsLineBreak(c) && !IsLineBreak(d)
    ensures Pieces([c, '\n', d]) == [[c], [d]]
  {
    PiecesSingle([d]);
    PiecesCons([c], '\n', [d]);
    assert [c] + ['\n'] + [d] == [c, '\n', d];
  }

  lemma PiecesOfThree(b: char, c: char, d: char)
    requires !IsLineBreak(b) && !IsLineBreak(c) && !IsLineBreak(d)
    ensures Pieces([b, '\n', c, '\n', d]) == [[b], [c], [d]]
  {
    PiecesOfTwo(c, d);
    PiecesCons([b], '\n', [c, '\n', d]);
    assert [b] + ['\n'] + [c, '\n', d] == [b, '\n', c, '\n', d];
  }

  lemma PiecesOfFour(a: char, b: char, c: char, d: char)
    requires !IsLineBreak(a) && !IsLineBreak(b) && !IsLineBreak(c) && !IsLineBreak(d)
    ensures Pieces([a, '\n', b, '\n', c, '\n', d]) == [[a], [b], [c], [d]]
  {
    PiecesOfThree(b, c, d);
    PiecesCons([a], '\n', [b, '\n', c, '\n', d]);
    assert [a] + ['\n'] + [b, '\n', c, '\n', d] == [a, '\n', b, '\n', c, '\n', d];
  }

  lemma PiecesOfReply()
    ensures Pieces("N\nN\nY\nY") == ["N", "N", "Y", "Y"]
  {
    PiecesOfFour('N', 'N', 'Y', 'Y');
  }

  /** ...while counting only the paired lines fails the same reply. */
  lemma StrayLinesFail()
    ensures !ConceptualCorrected("", ["uses sandhi", "names the root"], Replied("N\nN\nY\nY"), DefaultThreshold).passed
  {
    ReplyLinesOfExample();
    var lines := ["N", "N", "Y", "Y"];
    assert lines[..2] == ["N", "N"];
    assert CountYes(lines[..2]) == 0;
    assert Total(["uses sandhi", "names the root"], lines) == 2;
  }

  /**
   * `assess_conceptual`: no rubric passes; a reply is rated by its Y lines,
   * counted as written; no key or a failed call falls back to the heuristic.
   */
  function Conceptual(answer: string, criteria: seq<string>, access: LlmAccess, threshold: real): Outcome
  {
    if criteria == [] then Outcome(true, "", NoMeta)
    else match access
      case Replied(content) =>
        var lines := ReplyLines(content);
        FromReply(criteria, lines, HitsAsWritten(criteria, lines), threshold)
      case _ => Heuristic(answer, criteria, threshold)
  }

  /** The corrected assessment, counting only the lines paired with a criterion. */
  function ConceptualCorrected(answer: string, criteria: seq<string>, access: LlmAccess, threshold: real): Outcome
  {
    if criteria == [] then Outcome(true, "", NoMeta)
    else match access
      case Replied(content) =>
        var lines := ReplyLines(content);
        FromReply(criteria, lines, Hits(criteria, lines), threshold)
      case _ => Heuristic(answer, criteria, threshold)
  }

  /** `assess_conceptual`, with the heuristic running its loop. */
  method AssessConceptual(answer: string, criteria: seq<string>, access: LlmAccess, threshold: real) returns (o: Outcome)
    ensures o == Conceptual(answer, criteria, access, threshold)
  {
    if criteria == [] {
      return Outcome(true, "", NoMeta);
    }
    match access {
      case Replied(content) =>
        var lines := ReplyLines(content);
        o := FromReply(criteria, lines, HitsAsWritten(criteria, lines), threshold);
      case _ =>
        o := HeuristicCheck(answer, criteria, threshold);
    }
  }

  /**
   * Every rated outcome passes exactly when its ratio reaches the threshold;
   * the ratio lies in [0, 1] unless a reply has more lines than criteria.
   */
  lemma ConceptualRatio(answer: string, criteria: seq<string>, access: LlmAccess, threshold: real)
    ensures var o := Conceptual(answer, criteria, access, threshold);
      (criteria == [] <==> o.meta.NoMeta?)
      && (o.meta.Rated? ==> (o.passed <==> o.meta.ratio >= threshold) && 0.0 <= o.meta.ratio)
      && (o.meta.Rated? && (access.Replied? ==> |ReplyLines(access.content)| <= |criteria|) ==>
            o.meta.ratio <= 1.0 && o.meta.met <= o.meta.total)
      && (o.meta.NoMeta? ==> o.passed && o.feedback == "")
      && (criteria != [] && !access.Replied? ==> o.meta.Rated? && o.meta.heuristic)
  {
    if criteria != [] {
      match access
      case Replied(content) =>
        var lines := ReplyLines(content);
        if |lines| <= |criteria| {
          HitsAgree(criteria, lines);
        }
        FromReplyRatio(criteria, lines, HitsAsWritten(criteria, lines), threshold);
      case _ =>
        HeuristicRatio(answer, criteria, threshold);
    }
  }

  /** A parsed reply is rated: it passes exactly when its ratio reaches the threshold, a ratio in [0, 1] when the hits stay within the total. */
  lemma FromReplyRatio(criteria: seq<string>, lines: seq<string>, hits: nat, threshold: real)
    requires criteria != []
    ensures var o := FromReply(criteria, lines, hits, threshold);
      o.meta.Rated? && o.meta.met == hits && o.meta.total == Total(criteria, lines)
      && (o.passed <==> o.meta.ratio >= threshold) && 0.0 <= o.meta.ratio
      && (hits <= Total(criteria, lines) ==> o.meta.ratio <= 1.0)
  {
    var total := Total(criteria, lines);
    if hits <= total {
      RatioBounds(hits, total);
    } else {
      assert 0.0 <= hits as real / total as real;
    }
  }

  /** With the corrected count, every rated outcome has a ratio in [0, 1] and met ≤ total. */
  lemma ConceptualCorrectedRatio(answer: string, criteria: seq<string>, access: LlmAccess, threshold: real)
    ensures var o := ConceptualCorrected(answer, criteria, access, threshold);
      (criteria == [] <==> o.meta.NoMeta?)
      && (o.meta.Rated? ==> 0.0 <= o.meta.ratio <= 1.0 && o.meta.met <= o.meta.total && (o.passed <==> o.meta.ratio >= threshold))
      && (o.meta.NoMeta? ==> o.passed && o.feedback == "")
  {
    if criteria != [] {
      match access
      case Replied(content) =>
        var lines := ReplyLines(content);
        FromReplyRatio(criteria, lines, Hits(criteria, lines), threshold);
      case _ =>
        HeuristicRatio(answer, criteria, threshold);
    }
  }

  /**
   * Among the paired lines, each criterion is either counted as met or
   * listed in the feedback: hits plus listed criteria is the number of pairs.
   */
  lemma {:induction false} MissedComplement(criteria: seq<string>, lines: seq<string>)
    ensures Hits(criteria, lines) + |Missed(criteria, lines)| == Min(|criteria|, |lines|)
  {
    if criteria != [] && lines != [] {
      MissedComplement(criteria[1..], lines[1..]);
      var m := Min(|criteria|, |lines|);
      assert lines[..m][1..] == lines[1..][..m - 1];
    }
  }

  /** As written the hits can exceed the total; they never do when the reply has no more lines than criteria. */
  lemma HitsAgree(criteria: seq<string>, lines: seq<string>)
    requires |lines| <= |criteria|
    ensures HitsAsWritten(criteria, lines) == Hits(criteria, lines)
  {
    assert lines[..Min(|criteria|, |lines|)] == lines;
  }
}
