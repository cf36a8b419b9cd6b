/**
 * Character-level diagnosis of a pronunciation: the target text and the
 * transcription are normalised, aligned by `difflib.SequenceMatcher`, and every
 * `replace` block is turned into (expected, heard) character pairs.
 *
 * The matcher itself is not modelled: its `get_opcodes()` output is a
 * parameter, constrained only by what difflib guarantees (the blocks tile both
 * strings in order and `equal` blocks really are equal).
 */
module PhonemeDiff {
  import opened Text

  /** The punctuation an ASR transcript may carry and `normalize_iast` deletes. */
  const Punctuation: string := ".,;:!?-–—"

  predicate NoPunctuation(s: string)
  {
    forall i :: 0 <= i < |s| ==> s[i] !in Punctuation
  }

  /** `re.sub(r"\s+", " ", s)`: every run of whitespace becomes one space. */
  function CollapseSpaces(s: string): string
    decreases |s|
  {
    if s == [] then []
    else if IsSpace(s[0]) then " " + CollapseSpaces(TrimStart(s))
    else [s[0]] + CollapseSpaces(s[1..])
  }

  /** Deletes every punctuation character. */
  function RemovePunctuation(s: string): string
  {
    if s == [] then []
    else if s[0] in Punctuation then RemovePunctuation(s[1..])
    else [s[0]] + RemovePunctuation(s[1..])
  }

  /**
   * `normalize_iast`: strip, collapse whitespace, delete punctuation. The
   * NFC step is left out: the text is taken to be already composed.
   */
  function NormalizeIast(text: string): string
  {
    if text == [] then [] else RemovePunctuation(CollapseSpaces(Trim(text)))
  }

  /** Only plain spaces survive collapsing, and never two in a row. */
  lemma {:induction false} CollapseSpacesShape(s: string)
    ensures forall i :: 0 <= i < |CollapseSpaces(s)| && IsSpace(CollapseSpaces(s)[i]) ==> CollapseSpaces(s)[i] == ' '
    ensures |s| > 0 ==> |CollapseSpaces(s)| > 0 && (IsSpace(CollapseSpaces(s)[0]) <==> IsSpace(s[0]))
    ensures forall i :: 0 <= i < |CollapseSpaces(s)| - 1 ==> !(IsSpace(CollapseSpaces(s)[i]) && IsSpace(CollapseSpaces(s)[i + 1]))
    decreases |s|
  {
    if s != [] {
      if IsSpace(s[0]) {
        var rest := TrimStart(s);
        CollapseSpacesShape(rest);
        assert rest == [] || !IsSpace(rest[0]);
      } else {
        CollapseSpacesShape(s[1..]);
      }
    }
  }

  /** Deleting characters keeps the plain-space property and removes all punctuation. */
  lemma {:induction false} RemovePunctuationShape(s: string)
    requires forall i :: 0 <= i < |s| && IsSpace(s[i]) ==> s[i] == ' '
    ensures NoPunctuation(RemovePunctuation(s))
    ensures forall i :: 0 <= i < |RemovePunctuation(s)| && IsSpace(RemovePunctuation(s)[i]) ==> RemovePunctuation(s)[i] == ' '
  {
    if s != [] {
      RemovePunctuationShape(s[1..]);
    }
  }

  /**
   * What normalisation guarantees: "" stays "", no punctuation is left, and the
   * only whitespace left is the plain space.
   */
  lemma NormalizeIastShape(text: string)
    ensures text == [] ==> NormalizeIast(text) == []
    ensures NoPunctuation(NormalizeIast(text))
    ensures forall i :: 0 <= i < |NormalizeIast(text)| && IsSpace(NormalizeIast(text)[i]) ==> NormalizeIast(text)[i] == ' '
  {
    if text != [] {
      CollapseSpacesShape(Trim(text));
      RemovePunctuationShape(CollapseSpaces(Trim(text)));
    }
  }

  lemma {:induction false} CollapseNoSpace(s: string)
    requires NoSpace(s)
    ensures CollapseSpaces(s) == s
  {
    if s != [] {
      CollapseNoSpace(s[1..]);
    }
  }

  lemma {:induction false} RemoveNoPunctuation(s: string)
    requires NoPunctuation(s)
    ensures RemovePunctuation(s) == s
  {
    if s != [] {
      RemoveNoPunctuation(s[1..]);
    }
  }

  /** A single clean word (no whitespace, no punctuation) is its own normal form. */
  lemma CleanWordIsNormal(w: string)
    requires NoSpace(w) && NoPunctuation(w)
    ensures NormalizeIast(w) == w
  {
    TrimOfNoSpace(w);
    CollapseNoSpace(w);
    RemoveNoPunctuation(w);
  }

  /**
   * The output can begin with a space: the dash is deleted after the strip,
   * so the space that followed it is left at the front.
   */
  lemma NormalizedCanStartWithSpace()
    ensures NormalizeIast("- a") == " a"
  {
    assert Trim("- a") == "- a";
    assert CollapseSpaces("a") == "a";
    assert CollapseSpaces(" a") == " a";
    assert CollapseSpaces("- a") == "- a";
    SpacedLetterKept('a');
  }

  /** A letter, alone or after a space, is left alone by the punctuation filter. */
  lemma SpacedLetterKept(c: char)
    requires c !in Punctuation
    ensures RemovePunctuation([c]) == [c]
    ensures RemovePunctuation([' ', c]) == [' ', c]
  {
    assert [c][1..] == [];
    assert [' ', c][1..] == [c];
  }

  lemma SingleSpacesKept()
    ensures CollapseSpaces("a - b") == "a - b"
  {
    assert CollapseSpaces("b") == "b";
    assert CollapseSpaces(" b") == " b";
    assert CollapseSpaces("- b") == "- b";
    assert CollapseSpaces(" - b") == " - b";
  }

  lemma DashRemoved()
    ensures RemovePunctuation("a - b") == "a  b"
  {
    SpacedLetterKept('b');
    assert RemovePunctuation("- b") == " b";
    assert RemovePunctuation(" - b") == "  b";
  }

  lemma DashBetweenWords()
    ensures NormalizeIast("a - b") == "a  b"
  {
    assert Trim("a - b") == "a - b";
    SingleSpacesKept();
    DashRemoved();
  }

  lemma DoubleSpaceBetweenWords()
    ensures NormalizeIast("a  b") == "a b"
  {
    assert Trim("a  b") == "a  b";
    assert TrimStart("  b") == "b";
    assert CollapseSpaces("b") == "b";
    assert CollapseSpaces("  b") == " b";
    assert CollapseSpaces("a  b") == "a b";
    SpacedLetterKept('b');
  }

  /** Normalising twice is not normalising once: a deleted dash leaves two spaces behind. */
  lemma NormalizeNotIdempotent()
    ensures NormalizeIast(NormalizeIast("a - b")) != NormalizeIast("a - b")
  {
    DashBetweenWords();
    DoubleSpaceBetweenWords();
    assert "a b" != "a  b";
  }

  // ---------------------------------------------------------------------------
  // The matcher's opcodes

  datatype Tag = Equal | Replace | Insert | Delete

  /** One `(tag, a0, a1, b0, b1)` tuple of `SequenceMatcher.get_opcodes()`. */
  datatype Opcode = Opcode(tag: Tag, a0: nat, a1: nat, b0: nat, b1: nat)

  predicate WellTagged(op: Opcode, a: string, b: string)
    requires op.a0 <= op.a1 <= |a| && op.b0 <= op.b1 <= |b|
  {
    match op.tag
    case Equal => a[op.a0..op.a1] == b[op.b0..op.b1]
    case Replace => op.a0 < op.a1 && op.b0 < op.b1
    case Insert => op.a0 == op.a1 && op.b0 < op.b1
    case Delete => op.a0 < op.a1 && op.b0 == op.b1
  }

  /** The opcodes cover a[i..] and b[j..] with consecutive, well-tagged blocks. */
  predicate Tiles(ops: seq<Opcode>, a: string, b: string, i: nat, j: nat)
    decreases |ops|
  {
    if ops == [] then i == |a| && j == |b|
    else
      var op := ops[0];
      op.a0 == i && op.b0 == j && i <= op.a1 <= |a| && j <= op.b1 <= |b|
      && WellTagged(op, a, b) && Tiles(ops[1..], a, b, op.a1, op.b1)
  }

  /** What difflib promises about `get_opcodes()` for the pair (a, b). */
  predicate MatcherOpcodes(ops: seq<Opcode>, a: string, b: string)
  {
    Tiles(ops, a, b, 0, 0)
  }

  predicate InBounds(ops: seq<Opcode>, a: string, b: string)
  {
    forall k :: 0 <= k < |ops| ==> ops[k].a0 <= ops[k].a1 <= |a| && ops[k].b0 <= ops[k].b1 <= |b|
  }

  lemma {:induction false} TilesInBounds(ops: seq<Opcode>, a: string, b: string, i: nat, j: nat)
    requires Tiles(ops, a, b, i, j)
    ensures InBounds(ops, a, b)
  {
    if ops != [] {
      TilesInBounds(ops[1..], a, b, ops[0].a1, ops[0].b1);
      forall k | 0 <= k < |ops| ensures ops[k].a0 <= ops[k].a1 <= |a| && ops[k].b0 <= ops[k].b1 <= |b| {
        if k > 0 {
          assert ops[k] == ops[1..][k - 1];
        }
      }
    }
  }

  /** The opcodes difflib produces for two identical strings: one `equal` block, none for "". */
  function IdentityOpcodes(n: nat): seq<Opcode>
  {
    if n == 0 then [] else [Opcode(Equal, 0, n, 0, n)]
  }

  lemma IdentityOpcodesMatch(s: string)
    ensures MatcherOpcodes(IdentityOpcodes(|s|), s, s)
  {
    if |s| > 0 {
      assert s[0..|s|] == s;
      var ops := IdentityOpcodes(|s|);
      assert Tiles(ops[1..], s, s, |s|, |s|);
    }
  }

  // ---------------------------------------------------------------------------
  // phoneme_diff

  /** A diff entry: (expected character or "", heard character or ""). */
  type Entry = (string, string)

  function Max(x: int, y: int): int { if x < y then y else x }

  predicate SingleChars(e: Entry)
  {
    |e.0| <= 1 && |e.1| <= 1 && (e.0 != [] || e.1 != [])
  }

  /**
   * Pairs one replace block positionally: the i-th expected character with the
   * i-th heard one, "" on the shorter side.
   */
  function PairUp(e: string, g: string): (r: seq<Entry>)
    ensures |r| == Max(|e|, |g|)
    decreases |e| + |g|
  {
    if e == [] && g == [] then []
    else if e == [] then [([], [g[0]])] + PairUp([], g[1..])
    else if g == [] then [([e[0]], [])] + PairUp(e[1..], [])
    else [([e[0]], [g[0]])] + PairUp(e[1..], g[1..])
  }

  lemma {:induction false} PairUpAt(e: string, g: string, k: nat)
    requires k < Max(|e|, |g|)
    ensures PairUp(e, g)[k] == (if k < |e| then [e[k]] else [], if k < |g| then [g[k]] else [])
    decreases |e| + |g|
  {
    if k > 0 {
      if e == [] {
        PairUpAt([], g[1..], k - 1);
      } else if g == [] {
        PairUpAt(e[1..], [], k - 1);
      } else {
        PairUpAt(e[1..], g[1..], k - 1);
      }
    }
  }

  /** No entry has both sides empty, and every non-empty side is one character. */
  lemma PairUpSingleChars(e: string, g: string)
    ensures forall k :: 0 <= k < |PairUp(e, g)| ==> SingleChars(PairUp(e, g)[k])
  {
    forall k | 0 <= k < |PairUp(e, g)| ensures SingleChars(PairUp(e, g)[k]) {
      PairUpAt(e, g, k);
    }
  }

  function ExpectedColumn(entries: seq<Entry>): string
  {
    if entries == [] then [] else entries[0].0 + ExpectedColumn(entries[1..])
  }

  function HeardColumn(entries: seq<Entry>): string
  {
    if entries == [] then [] else entries[0].1 + HeardColumn(entries[1..])
  }

  /** Reading a paired block column by column gives back both slices. */
  lemma {:induction false} PairUpColumns(e: string, g: string)
    ensures ExpectedColumn(PairUp(e, g)) == e
    ensures HeardColumn(PairUp(e, g)) == g
    decreases |e| + |g|
  {
    if e == [] && g == [] {
    } else if e == [] {
      PairUpColumns([], g[1..]);
      ColumnsCons(([], [g[0]]), PairUp([], g[1..]));
      assert g == [g[0]] + g[1..];
    } else if g == [] {
      PairUpColumns(e[1..], []);
      ColumnsCons(([e[0]], []), PairUp(e[1..], []));
      assert e == [e[0]] + e[1..];
    } else {
      PairUpColumns(e[1..], g[1..]);
      ColumnsCons(([e[0]], [g[0]]), PairUp(e[1..], g[1..]));
      assert e == [e[0]] + e[1..] && g == [g[0]] + g[1..];
    }
  }

  /** The columns of an entry followed by more entries. */
  lemma ColumnsCons(x: Entry, rest: seq<Entry>)
    ensures ExpectedColumn([x] + rest) == x.0 + ExpectedColumn(rest)
    ensures HeardColumn([x] + rest) == x.1 + HeardColumn(rest)
  {
    assert ([x] + rest)[1..] == rest;
  }

  function Contribution(op: Opcode, t: string, h: string): seq<Entry>
    requires op.a0 <= op.a1 <= |t| && op.b0 <= op.b1 <= |h|
  {
    if op.tag == Replace then PairUp(t[op.a0..op.a1], h[op.b0..op.b1]) else []
  }

  /** The entries `phoneme_diff` emits for the opcode list `ops` over (t, h). */
  function DiffOf(ops: seq<Opcode>, t: string, h: string): (r: seq<Entry>)
    requires InBounds(ops, t, h)
  {
    if ops == [] then []
    else Contribution(ops[0], t, h) + DiffOf(ops[1..], t, h)
  }

  lemma {:induction false} DiffOfSingleChars(ops: seq<Opcode>, t: string, h: string)
    requires InBounds(ops, t, h)
    ensures forall k :: 0 <= k < |DiffOf(ops, t, h)| ==> SingleChars(DiffOf(ops, t, h)[k])
  {
    if ops != [] {
      DiffOfSingleChars(ops[1..], t, h);
      if ops[0].tag == Replace {
        PairUpSingleChars(t[ops[0].a0..ops[0].a1], h[ops[0].b0..ops[0].b1]);
      }
      var c, rest := Contribution(ops[0], t, h), DiffOf(ops[1..], t, h);
      forall k | 0 <= k < |c + rest| ensures SingleChars((c + rest)[k]) {
        if k >= |c| {
          assert (c + rest)[k] == rest[k - |c|];
        }
      }
    }
  }

  lemma {:induction false} DiffOfSnoc(ops: seq<Opcode>, op: Opcode, t: string, h: string)
    requires InBounds(ops + [op], t, h)
    requires op.a0 <= op.a1 <= |t| && op.b0 <= op.b1 <= |h|
    ensures InBounds(ops, t, h)
    ensures DiffOf(ops + [op], t, h) == DiffOf(ops, t, h) + Contribution(op, t, h)
  {
    assert forall k :: 0 <= k < |ops| ==> ops[k] == (ops + [op])[k];
    if ops == [] {
      assert [op][1..] == [];
    } else {
      assert (ops + [op])[1..] == ops[1..] + [op];
      DiffOfSnoc(ops[1..], op, t, h);
    }
  }

  /** `insert`, `delete` and `equal` blocks emit nothing. */
  lemma {:induction false} OnlyReplaceEmits(ops: seq<Opcode>, t: string, h: string)
    requires InBounds(ops, t, h)
    requires forall k :: 0 <= k < |ops| ==> ops[k].tag != Replace
    ensures DiffOf(ops, t, h) == []
  {
    if ops != [] {
      OnlyReplaceEmits(ops[1..], t, h);
    }
  }

  /** The target text inside `replace` blocks, in block order. */
  function ReplacedTarget(ops: seq<Opcode>, t: string, h: string): string
    requires InBounds(ops, t, h)
  {
    if ops == [] then []
    else (if ops[0].tag == Replace then t[ops[0].a0..ops[0].a1] else []) + ReplacedTarget(ops[1..], t, h)
  }

  /** The heard text inside `replace` blocks, in block order. */
  function ReplacedHeard(ops: seq<Opcode>, t: string, h: string): string
    requires InBounds(ops, t, h)
  {
    if ops == [] then []
    else (if ops[0].tag == Replace then h[ops[0].b0..ops[0].b1] else []) + ReplacedHeard(ops[1..], t, h)
  }

  lemma {:induction false} ColumnsAppend(x: seq<Entry>, y: seq<Entry>)
    ensures ExpectedColumn(x + y) == ExpectedColumn(x) + ExpectedColumn(y)
    ensures HeardColumn(x + y) == HeardColumn(x) + HeardColumn(y)
  {
    if x == [] {
      assert x + y == y;
    } else {
      assert (x + y)[1..] == x[1..] + y;
      ColumnsAppend(x[1..], y);
    }
  }

  /**
   * Nothing is lost or invented: the expected column of the diff spells exactly
   * the replaced target text, and the heard column the replaced heard text.
   */
  lemma {:induction false} DiffColumns(ops: seq<Opcode>, t: string, h: string)
    requires InBounds(ops, t, h)
    ensures ExpectedColumn(DiffOf(ops, t, h)) == ReplacedTarget(ops, t, h)
    ensures HeardColumn(DiffOf(ops, t, h)) == ReplacedHeard(ops, t, h)
  {
    if ops != [] {
      DiffColumns(ops[1..], t, h);
      ColumnsAppend(Contribution(ops[0], t, h), DiffOf(ops[1..], t, h));
      if ops[0].tag == Replace {
        PairUpColumns(t[ops[0].a0..ops[0].a1], h[ops[0].b0..ops[0].b1]);
      }
    }
  }

  /**
   * The inner loops of `phoneme_diff` for one replace block: the expected
   * characters with their heard partners, then the surplus heard characters.
   */
  method AppendPairs(errors: seq<Entry>, expSlice: string, gotSlice: string) returns (r: seq<Entry>)
    ensures r == errors + PairUp(expSlice, gotSlice)
  {
    var pairs := PairUp(expSlice, gotSlice);
    r := errors;
    for i := 0 to |expSlice|
      invariant r == errors + pairs[..i]
    {
      var got := if i < |gotSlice| then [gotSlice[i]] else [];
      PairUpAt(expSlice, gotSlice, i);
      r := r + [([expSlice[i]], got)];
      assert pairs[..i + 1] == pairs[..i] + [pairs[i]];
    }
    var i := |expSlice|;
    while i < |gotSlice|
      invariant |expSlice| <= i <= Max(|expSlice|, |gotSlice|)
      invariant r == errors + pairs[..i]
    {
      PairUpAt(expSlice, gotSlice, i);
      r := r + [([], [gotSlice[i]])];
      assert pairs[..i + 1] == pairs[..i] + [pairs[i]];
      i := i + 1;
    }
    assert pairs[..i] == pairs;
  }

  /**
   * `phoneme_diff`: the loop over the opcodes of the normalised pair, appending
   * one entry per position of every replace block.
   */
  method Diff(target: string, heard: string, ops: seq<Opcode>) returns (errors: seq<Entry>)
    requires MatcherOpcodes(ops, NormalizeIast(target), NormalizeIast(heard))
    ensures InBounds(ops, NormalizeIast(target), NormalizeIast(heard))
    ensures errors == DiffOf(ops, NormalizeIast(target), NormalizeIast(heard))
  {
    var t := NormalizeIast(target);
    var h := NormalizeIast(heard);
    TilesInBounds(ops, t, h, 0, 0);
    errors := [];
    for k := 0 to |ops|
      invariant InBounds(ops[..k], t, h)
      invariant errors == DiffOf(ops[..k], t, h)
    {
      var op := ops[k];
      DiffStep(ops, k, t, h);
      if op.tag == Replace {
        errors := AppendPairs(errors, t[op.a0..op.a1], h[op.b0..op.b1]);
      }
    }
    assert ops[..|ops|] == ops;
  }

  /** One more opcode of an in-bounds list adds its contribution to the diff of the prefix. */
  lemma DiffStep(ops: seq<Opcode>, k: nat, t: string, h: string)
    requires InBounds(ops, t, h) && k < |ops|
    ensures InBounds(ops[..k + 1], t, h)
    ensures ops[k].a0 <= ops[k].a1 <= |t| && ops[k].b0 <= ops[k].b1 <= |h|
    ensures DiffOf(ops[..k + 1], t, h) == DiffOf(ops[..k], t, h) + Contribution(ops[k], t, h)
  {
    assert ops[..k + 1] == ops[..k] + [ops[k]];
    DiffOfSnoc(ops[..k], ops[k], t, h);
  }

  /** Identical texts, aligned as difflib aligns them, produce no entries. */
  lemma IdenticalTextsHaveNoDiff(text: string)
    ensures MatcherOpcodes(IdentityOpcodes(|NormalizeIast(text)|), NormalizeIast(text), NormalizeIast(text))
    ensures InBounds(IdentityOpcodes(|NormalizeIast(text)|), NormalizeIast(text), NormalizeIast(text))
    ensures DiffOf(IdentityOpcodes(|NormalizeIast(text)|), NormalizeIast(text), NormalizeIast(text)) == []
  {
    var n := NormalizeIast(text);
    IdentityOpcodesMatch(n);
    TilesInBounds(IdentityOpcodes(|n|), n, n, 0, 0);
    OnlyReplaceEmits(IdentityOpcodes(|n|), n, n);
  }

  /** The alignment difflib gives ṭīkā against tīkā, and the diff it yields. */
  lemma RetroflexAlignment()
    ensures var ops := [Opcode(Replace, 0, 1, 0, 1), Opcode(Equal, 1, 4, 1, 4)];
      MatcherOpcodes(ops, "ṭīkā", "tīkā") && InBounds(ops, "ṭīkā", "tīkā")
      && DiffOf(ops, "ṭīkā", "tīkā") == [("ṭ", "t")]
  {
    var ops := [Opcode(Replace, 0, 1, 0, 1), Opcode(Equal, 1, 4, 1, 4)];
    assert Tiles(ops[1..][1..], "ṭīkā", "tīkā", 4, 4);
    assert "ṭīkā"[1..4] == "tīkā"[1..4];
    assert Tiles(ops[1..], "ṭīkā", "tīkā", 1, 1);
    TilesInBounds(ops, "ṭīkā", "tīkā", 0, 0);
    assert PairUp("ṭ", "t") == [("ṭ", "t")];
  }

  /** The alignment difflib gives kāla against kala, and the diff it yields. */
  lemma VowelLengthAlignment()
    ensures var ops := [Opcode(Equal, 0, 1, 0, 1), Opcode(Replace, 1, 2, 1, 2), Opcode(Equal, 2, 4, 2, 4)];
      MatcherOpcodes(ops, "kāla", "kala") && InBounds(ops, "kāla", "kala")
      && DiffOf(ops, "kāla", "kala") == [("ā", "a")]
  {
    var ops := [Opcode(Equal, 0, 1, 0, 1), Opcode(Replace, 1, 2, 1, 2), Opcode(Equal, 2, 4, 2, 4)];
    assert "kāla"[2..4] == "kala"[2..4];
    assert "kāla"[0..1] == "kala"[0..1];
    assert Tiles(ops[1..][1..], "kāla", "kala", 2, 2);
    assert Tiles(ops[1..], "kāla", "kala", 1, 1);
    TilesInBounds(ops, "kāla", "kala", 0, 0);
    assert PairUp("ā", "a") == [("ā", "a")];
  }

  lemma CleanWordsAreNormal(a: string, b: string)
    requires NoSpace(a) && NoPunctuation(a) && NoSpace(b) && NoPunctuation(b)
    ensures NormalizeIast(a) == a && NormalizeIast(b) == b
  {
    CleanWordIsNormal(a);
    CleanWordIsNormal(b);
  }

  /** ṭīkā heard as tīkā: one retroflex/dental pair. */
  lemma RetroflexRegression()
    ensures var ops := [Opcode(Replace, 0, 1, 0, 1), Opcode(Equal, 1, 4, 1, 4)];
      MatcherOpcodes(ops, NormalizeIast("ṭīkā"), NormalizeIast("tīkā"))
      && InBounds(ops, NormalizeIast("ṭīkā"), NormalizeIast("tīkā"))
      && DiffOf(ops, NormalizeIast("ṭīkā"), NormalizeIast("tīkā")) == [("ṭ", "t")]
  {
    CleanWordsAreNormal("ṭīkā", "tīkā");
    RetroflexAlignment();
  }

  /** kāla heard as kala: one vowel-length pair. */
  lemma VowelLengthRegression()
    ensures var ops := [Opcode(Equal, 0, 1, 0, 1), Opcode(Replace, 1, 2, 1, 2), Opcode(Equal, 2, 4, 2, 4)];
      MatcherOpcodes(ops, NormalizeIast("kāla"), NormalizeIast("kala"))
      && InBounds(ops, NormalizeIast("kāla"), NormalizeIast("kala"))
      && DiffOf(ops, NormalizeIast("kāla"), NormalizeIast("kala")) == [("ā", "a")]
  {
    CleanWordsAreNormal("kāla", "kala");
    VowelLengthAlignment();
  }

  // ---------------------------------------------------------------------------
  // phoneme_similarity

  /** The number of matched characters: the total length of the `equal` blocks. */
  function Matches(ops: seq<Opcode>): nat
  {
    if ops == [] then 0
    else (if ops[0].tag == Equal && ops[0].a0 <= ops[0].a1 then ops[0].a1 - ops[0].a0 else 0) + Matches(ops[1..])
  }

  lemma {:induction false} MatchesBound(ops: seq<Opcode>, a: string, b: string, i: nat, j: nat)
    requires Tiles(ops, a, b, i, j)
    ensures Matches(ops) <= |a| - i && Matches(ops) <= |b| - j
  {
    if ops != [] {
      MatchesBound(ops[1..], a, b, ops[0].a1, ops[0].b1);
    }
  }

  /** All characters matched means the two remainders are equal. */
  lemma {:induction false} FullMatchMeansEqual(ops: seq<Opcode>, a: string, b: string, i: nat, j: nat)
    requires Tiles(ops, a, b, i, j)
    requires Matches(ops) == |a| - i == |b| - j
    ensures a[i..] == b[j..]
  {
    if ops != [] {
      var op := ops[0];
      MatchesBound(ops[1..], a, b, op.a1, op.b1);
      if op.tag == Equal {
        FullMatchMeansEqual(ops[1..], a, b, op.a1, op.b1);
        assert a[i..] == a[i..op.a1] + a[op.a1..];
        assert b[j..] == b[j..op.b1] + b[op.b1..];
      }
    }
  }

  /** `2·m / total` as a real number, which lies in [0, 1] when 2·m <= total. */
  function Ratio(m: nat, total: nat): (r: real)
    requires 0 < total && 2 * m <= total
    ensures 0.0 <= r <= 1.0
    ensures r == 1.0 <==> 2 * m == total
  {
    (2 * m) as real / total as real
  }

  /** `phoneme_similarity`: SequenceMatcher.ratio() = 2·matches / total length. */
  function Similarity(target: string, heard: string, ops: seq<Opcode>): (r: real)
    requires MatcherOpcodes(ops, NormalizeIast(target), NormalizeIast(heard))
    ensures 0.0 <= r <= 1.0
    ensures NormalizeIast(target) == [] && NormalizeIast(heard) == [] ==> r == 1.0
    ensures NormalizeIast(target) == [] && NormalizeIast(heard) != [] ==> r == 0.0
  {
    var t := NormalizeIast(target);
    var h := NormalizeIast(heard);
    if t == [] && h == [] then 1.0
    else if t == [] then 0.0
    else
      MatchesBound(ops, t, h, 0, 0);
      Ratio(Matches(ops), |t| + |h|)
  }

  /** A perfect ratio is reached only when the normalised texts are identical. */
  lemma PerfectSimilarityMeansSameText(target: string, heard: string, ops: seq<Opcode>)
    requires MatcherOpcodes(ops, NormalizeIast(target), NormalizeIast(heard))
    requires Similarity(target, heard, ops) == 1.0
    ensures NormalizeIast(target) == NormalizeIast(heard)
  {
    var t := NormalizeIast(target);
    var h := NormalizeIast(heard);
    if t != [] {
      MatchesBound(ops, t, h, 0, 0);
      FullMatchMeansEqual(ops, t, h, 0, 0);
      assert t[0..] == t && h[0..] == h;
    }
  }

  /** Conversely, identical texts aligned by one equal block score 1.0. */
  lemma IdenticalTextsScoreOne(text: string)
    ensures MatcherOpcodes(IdentityOpcodes(|NormalizeIast(text)|), NormalizeIast(text), NormalizeIast(text))
    ensures Similarity(text, text, IdentityOpcodes(|NormalizeIast(text)|)) == 1.0
  {
    var n := NormalizeIast(text);
    IdentityOpcodesMatch(n);
    if n != [] {
      assert Matches(IdentityOpcodes(|n|)) == |n|;
    }
  }
}
