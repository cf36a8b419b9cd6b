/**
 * The corpus side of the Sanskrit knowledge base builder: the topic a passage
 * is filed under, the removal of XML tags from dictionary bodies, and the
 * chunks built from Pāṇini's sūtras, the Dhātupāṭha, Whitney's grammar and
 * the Monier-Williams dictionary. Files, the network, the regular-expression
 * matchers that cut pages and XML into records, and Python's string hash are
 * parameters: each loader receives the records those would have produced.
 */
module RagBuild {
  import opened Wrappers
  import opened Text
  import opened Tables
  import opened Sorting

  /** A chunk of the knowledge base: its id, its text and its string-valued metadata. */
  datatype Chunk = Chunk(id: string, text: string, meta: Table<string>)

  // ---------------------------------------------------------------------------
  // Topic inference

  /** `TOPIC_KEYWORDS`, in declaration order. */
  const TopicKeywords: seq<(string, seq<string>)> := [
    ("sandhi", ["sandhi", "euphonic", "combination", "junction", "vowel+", "consonant+"]),
    ("dhatu", ["root", "dhātu", "verb root", "gaṇa", "class"]),
    ("suffix", ["suffix", "kṛt", "taddhita", "affix", "primary", "secondary"]),
    ("karaka", ["kāraka", "nominative", "accusative", "instrumental", "dative",
                "ablative", "genitive", "locative", "case"]),
    ("compound", ["compound", "samāsa", "tatpuruṣa", "bahuvrīhi", "dvandva", "avyayībhāva"]),
    ("conjugation", ["conjugation", "tense", "mood", "present", "perfect", "aorist",
                     "future", "passive", "ātmanepada", "parasmaipada"]),
    ("declension", ["declension", "stem", "gender", "number", "singular", "dual", "plural"]),
    ("phonology", ["vowel", "consonant", "phoneme", "accent", "pitch", "quantity",
                   "guṇa", "vṛddhi", "retroflex", "palatal", "guttural"])
  ]

  /** Some keyword occurs in `t` (Python `any(k in t for k in keywords)`). */
  predicate Mentions(t: string, keywords: seq<string>)
  {
    exists i :: 0 <= i < |keywords| && Contains(t, keywords[i])
  }

  /** The first topic of `topics` one of whose keywords occurs in `t`, else "general". */
  function FirstTopic(t: string, topics: seq<(string, seq<string>)>): string
  {
    if topics == [] then "general"
    else if Mentions(t, topics[0].1) then topics[0].0
    else FirstTopic(t, topics[1..])
  }

  /** `infer_topic`: the search runs over the lower-cased text. */
  function InferTopic(text: string): string
  {
    FirstTopic(Lower(text), TopicKeywords)
  }

  /**
   * The topic found is the first (in declaration order) whose keywords occur,
   * and "general" exactly when no topic's keywords occur.
   */
  lemma {:induction false} FirstTopicSpec(t: string, topics: seq<(string, seq<string>)>)
    requires forall i :: 0 <= i < |topics| ==> topics[i].0 != "general"
    ensures var r := FirstTopic(t, topics);
      (r == "general" <==> forall i :: 0 <= i < |topics| ==> !Mentions(t, topics[i].1))
      && (r != "general" ==>
            exists i :: (0 <= i < |topics| && r == topics[i].0 && Mentions(t, topics[i].1)
                         && forall j :: 0 <= j < i ==> !Mentions(t, topics[j].1)))
  {
    if topics != [] && !Mentions(t, topics[0].1) {
      FirstTopicSpec(t, topics[1..]);
      var r := FirstTopic(t, topics);
      if r != "general" {
        var i :| 0 <= i < |topics[1..]| && r == topics[1..][i].0 && Mentions(t, topics[1..][i].1)
          && forall j :: 0 <= j < i ==> !Mentions(t, topics[1..][j].1);
        forall j | 0 <= j < i + 1 ensures !Mentions(t, topics[j].1) {
          if j > 0 {
            assert topics[j] == topics[1..][j - 1];
          }
        }
      }
    }
  }

  lemma NoTopicIsGeneral()
    ensures forall i :: 0 <= i < |TopicKeywords| ==> TopicKeywords[i].0 != "general"
  {
  }

  /**
   * `infer_topic` gives "general" exactly when no keyword of any topic is in
   * the lower-cased text; otherwise the first topic, in declaration order,
   * with a keyword in it.
   */
  lemma InferTopicSpec(text: string)
    ensures var t := Lower(text);
      var r := InferTopic(text);
      (r == "general" <==> forall i :: 0 <= i < |TopicKeywords| ==> !Mentions(t, TopicKeywords[i].1))
      && (r != "general" ==>
            exists i :: (0 <= i < |TopicKeywords| && r == TopicKeywords[i].0
                         && Mentions(t, TopicKeywords[i].1) && forall j :: 0 <= j < i ==> !Mentions(t, TopicKeywords[j].1)))
  {
    NoTopicIsGeneral();
    FirstTopicSpec(Lower(text), TopicKeywords);
  }

  /** A text that mentions sandhi is filed under sandhi, whatever later topics it also mentions. */
  lemma SandhiComesFirst(text: string)
    requires Contains(Lower(text), "sandhi")
    ensures InferTopic(text) == "sandhi"
  {
    assert TopicKeywords[0].1[0] == "sandhi";
  }

  // ---------------------------------------------------------------------------
  // XML tags

  /** The first index at or after `i` holding '>', or |s|. */
  function CloseAt(s: string, i: nat): (j: nat)
    requires i <= |s|
    ensures i <= j <= |s| && (j < |s| ==> s[j] == '>')
    ensures forall k :: i <= k < j ==> s[k] != '>'
    decreases |s| - i
  {
    if i == |s| || s[i] == '>' then i else CloseAt(s, i + 1)
  }

  /**
   * `re.sub(r"<[^>]+>", " ", s)`: a '<' that has at least one character and
   * then a '>' after it, with no '>' in between, starts a tag; the tag up to
   * that '>' becomes one space. Any other character is kept.
   */
  function Untag(s: string): (r: string)
    ensures |r| <= |s|
    decreases |s|
  {
    if s == [] then []
    else if s[0] == '<' && 1 < CloseAt(s, 1) < |s| then " " + Untag(s[CloseAt(s, 1) + 1..])
    else [s[0]] + Untag(s[1..])
  }

  /** `_strip_xml_tags`. */
  function StripXmlTags(s: string): string
  {
    Trim(Untag(s))
  }

  /** `r` holds no tag: every '<' is directly followed by '>' or has no '>' after it. */
  predicate NoTag(r: string)
  {
    forall i :: 0 <= i < |r| && r[i] == '<' ==> (i + 1 < |r| && r[i + 1] == '>') || '>' !in r[i + 1..]
  }

  /** Untagging only keeps characters of the input or writes spaces. */
  lemma {:induction false} UntagChars(s: string)
    ensures forall c :: c in Untag(s) ==> c == ' ' || c in s
    decreases |s|
  {
    if s != [] {
      if s[0] == '<' && 1 < CloseAt(s, 1) < |s| {
        UntagChars(s[CloseAt(s, 1) + 1..]);
      } else {
        UntagChars(s[1..]);
      }
    }
  }

  /** A text without '<' has no tag to remove. */
  lemma {:induction false} UntagPlain(s: string)
    requires '<' !in s
    ensures Untag(s) == s
    decreases |s|
  {
    if s != [] {
      assert '<' !in s[1..];
      UntagPlain(s[1..]);
    }
  }

  lemma NoTagCons(c: char, r: string)
    requires NoTag(r)
    requires c == '<' ==> (r != [] && r[0] == '>') || '>' !in r
    ensures NoTag([c] + r)
  {
    var x := [c] + r;
    forall i | 0 <= i < |x| && x[i] == '<'
      ensures (i + 1 < |x| && x[i + 1] == '>') || '>' !in x[i + 1..]
    {
      if i > 0 {
        assert x[i + 1..] == r[i..];
      } else {
        assert x[1..] == r;
      }
    }
  }

  /** Nothing that looks like a tag survives `Untag`. */
  lemma {:induction false} UntagLeavesNoTag(s: string)
    ensures NoTag(Untag(s))
    decreases |s|
  {
    if s != [] {
      if s[0] == '<' && 1 < CloseAt(s, 1) < |s| {
        var rest := s[CloseAt(s, 1) + 1..];
        UntagLeavesNoTag(rest);
        NoTagCons(' ', Untag(rest));
      } else {
        var rest := s[1..];
        UntagLeavesNoTag(rest);
        if s[0] == '<' {
          if CloseAt(s, 1) < |s| {
            assert CloseAt(s, 1) == 1 && s[1] == '>' && rest[0] == '>';
            assert Untag(rest) == [rest[0]] + Untag(rest[1..]);
          } else {
            assert '>' !in rest;
            UntagChars(rest);
          }
        }
        NoTagCons(s[0], Untag(rest));
      }
    }
  }

  /** The stripped body has no tags and no surrounding whitespace. */
  lemma StripXmlTagsSpec(s: string)
    ensures var r := StripXmlTags(s);
      (r == [] || (!IsSpace(r[0]) && !IsSpace(r[|r| - 1])))
      && ('<' !in s ==> r == Trim(s))
  {
    TrimEnds(Untag(s));
    if '<' !in s {
      UntagPlain(s);
    }
  }

  // ---------------------------------------------------------------------------
  // Ids

  // ---------------------------------------------------------------------------
  // Pāṇini

  /** The sūtra reference `a.p.n`. */
  function SutraRef(a: string, p: string, n: string): string
  {
    a + "." + p + "." + n
  }

  /**
   * The chunk of one sūtra record (`s.get(k, "")` for its fields) with the
   * English glosses keyed by the sūtra's `i`.
   */
  function PaniniChunk(sutra: Table<string>, glosses: Table<string>): Chunk
  {
    var ref := RefOf(sutra);
    var topic := PaniniTopic(sutra, glosses);
    Chunk("panini_" + ReplaceChar(ref, '.', '_'), PaniniText(ref, topic, GetOr(sutra, "s", ""), Gloss(sutra, glosses)),
          [("source", "panini"), ("type", "sutra"), ("ref", ref), ("chapter", "ch" + GetOr(sutra, "a", "")), ("topic", topic)])
  }

  function RefOf(sutra: Table<string>): string
  {
    SutraRef(GetOr(sutra, "a", ""), GetOr(sutra, "p", ""), GetOr(sutra, "n", ""))
  }

  /** The stripped English gloss of the sūtra, "" when there is none. */
  function Gloss(sutra: Table<string>, glosses: Table<string>): string
  {
    Trim(GetOr(glosses, GetOr(sutra, "i", ""), ""))
  }

  function PaniniTopic(sutra: Table<string>, glosses: Table<string>): string
  {
    var gloss := Gloss(sutra, glosses);
    if gloss != "" then InferTopic(gloss) else InferTopic(GetOr(sutra, "s", ""))
  }

  function PaniniText(ref: string, topic: string, skt: string, gloss: string): string
  {
    "Pāṇini " + ref + " [" + topic + "]: " + skt + (if gloss != "" then " — " + gloss else "")
  }

  /** Replacing the dots of a reference `a.p.n` whose parts have none gives `a_p_n`. */
  lemma RefId(a: string, p: string, n: string)
    requires '.' !in a && '.' !in p && '.' !in n
    ensures ReplaceChar(SutraRef(a, p, n), '.', '_') == a + "_" + p + "_" + n
  {
    var r := ReplaceChar(SutraRef(a, p, n), '.', '_');
    var e := a + "_" + p + "_" + n;
    assert |r| == |e|;
    forall i | 0 <= i < |r| ensures r[i] == e[i] {
      if i < |a| {
        assert SutraRef(a, p, n)[i] == a[i];
      } else if i == |a| {
      } else if i < |a| + 1 + |p| {
        assert SutraRef(a, p, n)[i] == p[i - |a| - 1];
      } else if i == |a| + 1 + |p| {
      } else {
        assert SutraRef(a, p, n)[i] == n[i - |a| - |p| - 2];
      }
    }
  }

  lemma DigitsHaveNoMarks(s: string)
    requires Digits(s)
    ensures '.' !in s && '_' !in s
  {
    forall i | 0 <= i < |s| ensures s[i] != '.' && s[i] != '_' {
      assert '0' <= s[i] <= '9';
    }
  }

  /** Numeric references that give the same id are the same reference. */
  lemma RefIdInjective(a1: string, p1: string, n1: string, a2: string, p2: string, n2: string)
    requires Digits(a1) && Digits(p1) && Digits(n1) && Digits(a2) && Digits(p2) && Digits(n2)
    requires ReplaceChar(SutraRef(a1, p1, n1), '.', '_') == ReplaceChar(SutraRef(a2, p2, n2), '.', '_')
    ensures a1 == a2 && p1 == p2 && n1 == n2
  {
    DigitsHaveNoMarks(a1); DigitsHaveNoMarks(p1); DigitsHaveNoMarks(n1);
    DigitsHaveNoMarks(a2); DigitsHaveNoMarks(p2); DigitsHaveNoMarks(n2);
    RefId(a1, p1, n1);
    RefId(a2, p2, n2);
    SplitUnderscored(a1, p1, n1, a2, p2, n2);
  }

  /** `a_p_n` splits back into its parts when none of them holds an underscore. */
  lemma SplitUnderscored(a1: string, p1: string, n1: string, a2: string, p2: string, n2: string)
    requires '_' !in a1 && '_' !in p1 && '_' !in a2 && '_' !in p2
    requires a1 + "_" + p1 + "_" + n1 == a2 + "_" + p2 + "_" + n2
    ensures a1 == a2 && p1 == p2 && n1 == n2
  {
    assert a1 + ['_'] + (p1 + ['_'] + n1) == a1 + "_" + p1 + "_" + n1;
    assert a2 + ['_'] + (p2 + ['_'] + n2) == a2 + "_" + p2 + "_" + n2;
    SplitAtFirst(a1, p1 + ['_'] + n1, a2, p2 + ['_'] + n2, '_');
    SplitAtFirst(p1, n1, p2, n2, '_');
  }

  /** Two sūtras with numeric references get the same id only when their references agree. */
  lemma PaniniIdsDistinct(s1: Table<string>, s2: Table<string>, glosses: Table<string>)
    requires Digits(GetOr(s1, "a", "")) && Digits(GetOr(s1, "p", "")) && Digits(GetOr(s1, "n", ""))
    requires Digits(GetOr(s2, "a", "")) && Digits(GetOr(s2, "p", "")) && Digits(GetOr(s2, "n", ""))
    requires PaniniChunk(s1, glosses).id == PaniniChunk(s2, glosses).id
    ensures GetOr(s1, "a", "") == GetOr(s2, "a", "") && GetOr(s1, "p", "") == GetOr(s2, "p", "")
      && GetOr(s1, "n", "") == GetOr(s2, "n", "")
  {
    var a1, p1, n1 := GetOr(s1, "a", ""), GetOr(s1, "p", ""), GetOr(s1, "n", "");
    var a2, p2, n2 := GetOr(s2, "a", ""), GetOr(s2, "p", ""), GetOr(s2, "n", "");
    var r1, r2 := ReplaceChar(RefOf(s1), '.', '_'), ReplaceChar(RefOf(s2), '.', '_');
    assert PaniniChunk(s1, glosses).id == "panini_" + r1;
    assert PaniniChunk(s2, glosses).id == "panini_" + r2;
    assert "panini_" + r1 == "panini_" + r2;
    assert r1 == ("panini_" + r1)[7..];
    RefIdInjective(a1, p1, n1, a2, p2, n2);
  }

  /**
   * A sūtra's text names the reference and the topic, then the sūtra, and
   * ends with " — " and the gloss only when the gloss is not empty.
   */
  lemma PaniniTextSpec(ref: string, topic: string, skt: string, gloss: string)
    ensures var t := PaniniText(ref, topic, skt, gloss);
      var head := "Pāṇini " + ref + " [" + topic + "]: " + skt;
      StartsWith(t, head)
      && (gloss != "" ==> EndsWith(t, " — " + gloss) && |t| == |head| + 3 + |gloss|)
      && (gloss == "" ==> t == head)
  {
    var t := PaniniText(ref, topic, skt, gloss);
    var head := "Pāṇini " + ref + " [" + topic + "]: " + skt;
    assert t[..|head|] == head;
  }

  /**
   * The topic of a sūtra's chunk comes from its gloss when there is one and
   * from the sūtra otherwise; the text and the metadata carry the same
   * reference and topic.
   */
  lemma PaniniChunkSpec(sutra: Table<string>, glosses: Table<string>)
    ensures var c := PaniniChunk(sutra, glosses);
      var gloss := Gloss(sutra, glosses);
      var topic := PaniniTopic(sutra, glosses);
      && topic == (if gloss != "" then InferTopic(gloss) else InferTopic(GetOr(sutra, "s", "")))
      && c.text == PaniniText(RefOf(sutra), topic, GetOr(sutra, "s", ""), gloss)
      && c.meta[2] == ("ref", RefOf(sutra)) && c.meta[4] == ("topic", topic)
  {
  }

  /**
   * `load_panini`: `sutras` is the record list under "data" of the sūtra file,
   * or None when the file does not exist; `glosses` the gloss file's table
   * (empty when that file does not exist). One chunk per sūtra, in order.
   */
  method LoadPanini(sutras: Option<seq<Table<string>>>, glosses: Table<string>) returns (chunks: seq<Chunk>)
    ensures sutras.None? ==> chunks == []
    ensures sutras.Some? ==>
      |chunks| == |sutras.value|
      && forall i :: 0 <= i < |chunks| ==> chunks[i] == PaniniChunk(sutras.value[i], glosses)
  {
    chunks := [];
    if sutras.None? {
      return;
    }
    var records := sutras.value;
    ghost var f := (s, k) => PaniniChunk(s, glosses);
    for i := 0 to |records|
      invariant chunks == Build(records[..i], f)
    {
      BuildStep(records, i, f);
      chunks := chunks + [PaniniChunk(records[i], glosses)];
    }
    assert records[..|records|] == records;
    BuildIndex(records, f);
  }

  // ---------------------------------------------------------------------------
  // Dhātupāṭha

  /** The text of a root entry: the header, then each non-empty segment. */
  function DhatuText(entry: Table<string>): string
  {
    var artha, arthaEn, note := GetOr(entry, "artha", ""), GetOr(entry, "artha_english", ""), GetOr(entry, "dhaturoopnandini_note", "");
    DhatuHeader(entry)
      + (if artha != "" then " — " + artha else "")
      + (if arthaEn != "" then ". " + arthaEn else "")
      + (if note != "" then " Commentary: " + note else "")
  }

  function DhatuHeader(entry: Table<string>): string
  {
    "Dhātupāṭha: " + GetOr(entry, "dhatu", "") + " (gaṇa " + GetOr(entry, "gana", "") + ", " + GetOr(entry, "pada", "") + ")"
  }

  /** The chunk of the root entry at position `index` of the list. */
  function DhatuChunk(entry: Table<string>, index: nat): Chunk
  {
    Chunk(DhatuId(entry, index), DhatuText(entry), DhatuMeta(entry))
  }

  /** The id: the entry's `i`, else its `baseindex`, else its position, with dots and spaces made '_'. */
  function DhatuId(entry: Table<string>, index: nat): string
  {
    var key := GetOr(entry, "i", GetOr(entry, "baseindex", NatToString(index)));
    "dhatu_" + ReplaceChar(ReplaceChar(key, '.', '_'), ' ', '_')
  }

  function DhatuMeta(entry: Table<string>): Table<string>
  {
    [("source", "dhatupatha"), ("type", "dhatu"), ("gana", GetOr(entry, "gana", "")), ("topic", InferTopic(DhatuText(entry)))]
  }

  /**
   * A root's text starts with its header and adds the meaning, the English
   * meaning and the commentary each only when it is non-empty: its length is
   * the header's plus exactly the segments present, and it ends with the
   * commentary when there is one.
   */
  lemma DhatuTextSpec(entry: Table<string>)
    ensures var artha, arthaEn, note := GetOr(entry, "artha", ""), GetOr(entry, "artha_english", ""), GetOr(entry, "dhaturoopnandini_note", "");
      var t := DhatuText(entry);
      StartsWith(t, DhatuHeader(entry))
      && |t| == |DhatuHeader(entry)| + (if artha != "" then 3 + |artha| else 0)
           + (if arthaEn != "" then 2 + |arthaEn| else 0) + (if note != "" then 13 + |note| else 0)
      && (note != "" ==> EndsWith(t, " Commentary: " + note))
      && (artha == "" && arthaEn == "" && note == "" ==> t == DhatuHeader(entry))
  {
    var t := DhatuText(entry);
    var h := DhatuHeader(entry);
    assert t[..|h|] == h;
  }

  /** A root's id never holds a dot or a space. */
  lemma DhatuIdClean(entry: Table<string>, index: nat)
    ensures var id := DhatuId(entry, index);
      StartsWith(id, "dhatu_") && '.' !in id && ' ' !in id
  {
    var key := GetOr(entry, "i", GetOr(entry, "baseindex", NatToString(index)));
    var r := ReplaceChar(ReplaceChar(key, '.', '_'), ' ', '_');
    assert '.' !in r && ' ' !in r by {
      forall i | 0 <= i < |r| ensures r[i] != '.' && r[i] != ' ' {
        assert ReplaceChar(key, '.', '_')[i] != '.';
      }
    }
  }

  /** `load_dhatupatha`: `entries` is the list under "data", or None when the file does not exist. */
  method LoadDhatupatha(entries: Option<seq<Table<string>>>) returns (chunks: seq<Chunk>)
    ensures entries.None? ==> chunks == []
    ensures entries.Some? ==>
      |chunks| == |entries.value|
      && forall i :: 0 <= i < |chunks| ==> chunks[i] == DhatuChunk(entries.value[i], i)
  {
    chunks := [];
    if entries.None? {
      return;
    }
    var records := entries.value;
    for i := 0 to |records|
      invariant chunks == Build(records[..i], DhatuChunk)
    {
      BuildStep(records, i, DhatuChunk);
      chunks := chunks + [DhatuChunk(records[i], |chunks|)];
    }
    assert records[..|records|] == records;
    BuildIndex(records, DhatuChunk);
  }

  // ---------------------------------------------------------------------------
  // Whitney

  /** The (number, body) pairs of a page split at its paragraph numbers: parts 1,2 then 3,4, and so on. */
  function NumberedPairs(parts: seq<string>): (r: seq<(string, string)>)
    ensures |parts| >= 1 ==> |r| == (|parts| - 1) / 2
  {
    if |parts| < 3 then [] else seq((|parts| - 1) / 2, k requires 0 <= k < (|parts| - 1) / 2 => (parts[2 * k + 1], parts[2 * k + 2]))
  }

  /** A paragraph is kept when its stripped body has at least 40 characters. */
  predicate LongBody(pair: (string, string))
  {
    |Trim(pair.1)| >= 40
  }

  /** The chunk of the `wi`-th kept numbered paragraph of chapter `chapter`. */
  function WhitneyChunk(chapter: string, pair: (string, string), wi: nat): Chunk
  {
    var num, body := Trim(pair.0), Trim(pair.1);
    Chunk(WhitneyId(chapter, wi, num),
          "Whitney " + num + ": " + body,
          [("source", "whitney"), ("type", "explanation"), ("ref", "§" + num), ("chapter", chapter), ("topic", InferTopic(body))])
  }

  /** The id of the `wi`-th numbered paragraph, numbered `num`, of `chapter`. */
  function WhitneyId(chapter: string, wi: nat, num: string): string
  {
    "whitney_" + (chapter + ['_'] + (NatToString(wi) + ['_'] + ReplaceChar(ReplaceChar(num, '.', '_'), ' ', '_')))
  }

  /** The numbered chunks of a chapter: the kept paragraphs, numbered from 1. */
  function WhitneyNumbered(chapter: string, pairs: seq<(string, string)>): seq<Chunk>
  {
    var kept := Filter(pairs, LongBody);
    seq(|kept|, k requires 0 <= k < |kept| => WhitneyChunk(chapter, kept[k], k + 1))
  }

  /**
   * The numbered chunks are, in order and numbered from 1, the chunks of
   * exactly the paragraphs whose stripped body has at least 40 characters.
   */
  lemma WhitneyNumberedSources(chapter: string, pairs: seq<(string, string)>)
    ensures var kept := Filter(pairs, LongBody);
      var cs := WhitneyNumbered(chapter, pairs);
      |cs| == |kept| <= |pairs|
      && (forall x :: x in kept <==> x in pairs && LongBody(x))
      && forall k :: 0 <= k < |cs| ==> cs[k] == WhitneyChunk(chapter, kept[k], k + 1)
  {
    FilterMembers(pairs, LongBody);
  }

  /** Within a chapter whose name has no '_', the numbered chunks have distinct ids. */
  lemma WhitneyIdsDistinct(chapter: string, pairs: seq<(string, string)>)
    requires '_' !in chapter
    ensures var cs := WhitneyNumbered(chapter, pairs);
      forall k, l :: 0 <= k < l < |cs| ==> cs[k].id != cs[l].id
  {
    var kept := Filter(pairs, LongBody);
    var cs := WhitneyNumbered(chapter, pairs);
    forall k, l | 0 <= k < l < |cs| ensures cs[k].id != cs[l].id {
      assert cs[k] == WhitneyChunk(chapter, kept[k], k + 1) && cs[l] == WhitneyChunk(chapter, kept[l], l + 1);
      if cs[k].id == cs[l].id {
        WhitneyIdNumber(chapter, k + 1, Trim(kept[k].0), l + 1, Trim(kept[l].0));
      }
    }
  }

  /** Two ids of one chapter that agree carry the same running number. */
  lemma WhitneyIdNumber(chapter: string, w1: nat, num1: string, w2: nat, num2: string)
    requires '_' !in chapter
    requires WhitneyId(chapter, w1, num1) == WhitneyId(chapter, w2, num2)
    ensures w1 == w2
  {
    var r1 := ReplaceChar(ReplaceChar(num1, '.', '_'), ' ', '_');
    var r2 := ReplaceChar(ReplaceChar(num2, '.', '_'), ' ', '_');
    var d1, d2 := NatToString(w1), NatToString(w2);
    var t1, t2 := chapter + ['_'] + (d1 + ['_'] + r1), chapter + ['_'] + (d2 + ['_'] + r2);
    assert t1 == WhitneyId(chapter, w1, num1)[8..];
    assert t2 == WhitneyId(chapter, w2, num2)[8..];
    SplitAtFirst(chapter, d1 + ['_'] + r1, chapter, d2 + ['_'] + r2, '_');
    DigitsHaveNoMarks(d1);
    DigitsHaveNoMarks(d2);
    SplitAtFirst(d1, r1, d2, r2, '_');
    NatToStringInjective(w1, w2);
  }

  /** A fallback paragraph is kept when it has at least 80 characters once stripped. */
  predicate LongParagraph(p: string)
  {
    |p| >= 80
  }

  /** The paragraph separator of the fallback split. */
  const BlankLine: string := "\n\n"

  /**
   * The paragraphs of a page without numbered paragraphs: the stripped
   * blank-line-separated paragraphs of at least 80 characters, at most 80 of them.
   */
  function FallbackParagraphs(text: string): seq<string>
  {
    Take(Filter(Stripped(SplitOn(text, BlankLine)), LongParagraph), 80)
  }

  /** The chunk of the `k`-th fallback paragraph; `hash` is Python's string hash. */
  function FallbackChunk(chapter: string, k: nat, para: string, hash: string -> int): Chunk
  {
    Chunk("whitney_" + chapter + "_p" + NatToString(k) + "_" + NatToString(Abs(hash(para)) % 100000),
          "Whitney " + chapter + " p" + NatToString(k + 1) + ": " + para,
          [("source", "whitney"), ("type", "explanation"), ("ref", chapter), ("chapter", chapter), ("topic", InferTopic(para))])
  }

  /** The paragraph chunks of a chapter whose page has no numbered paragraphs. */
  function WhitneyFallback(chapter: string, text: string, hash: string -> int): seq<Chunk>
  {
    var paras := FallbackParagraphs(text);
    seq(|paras|, k requires 0 <= k < |paras| => FallbackChunk(chapter, k, paras[k], hash))
  }

  function Abs(x: int): nat
  {
    if x < 0 then -x else x
  }

  function Stripped(ps: seq<string>): (r: seq<string>)
    ensures |r| == |ps| && forall i :: 0 <= i < |ps| ==> r[i] == Trim(ps[i])
  {
    seq(|ps|, i requires 0 <= i < |ps| => Trim(ps[i]))
  }

  /**
   * At most 80 fallback paragraphs, each of at least 80 characters and each
   * a stripped piece of the text between blank lines.
   */
  lemma FallbackParagraphsSpec(text: string)
    ensures var paras := FallbackParagraphs(text);
      |paras| <= 80
      && forall k :: 0 <= k < |paras| ==> |paras[k]| >= 80 && paras[k] in Stripped(SplitOn(text, BlankLine))
  {
    var pieces := Stripped(SplitOn(text, BlankLine));
    var all := Filter(pieces, LongParagraph);
    var paras := FallbackParagraphs(text);
    forall k | 0 <= k < |paras| ensures |paras[k]| >= 80 && paras[k] in pieces {
      assert paras[k] == all[k];
      FilterIn(pieces, LongParagraph, k);
    }
  }

  /** What the page of a chapter gave: its text and that text split at the paragraph numbers. */
  datatype Page = Page(text: string, parts: seq<string>)

  /** The chunks of one chapter page: numbered paragraphs when the split found any, else the fallback. */
  function WhitneyChapter(chapter: string, page: Page, hash: string -> int): seq<Chunk>
  {
    if |page.parts| >= 3 then WhitneyNumbered(chapter, NumberedPairs(page.parts))
    else WhitneyFallback(chapter, page.text, hash)
  }

  /**
   * `scrape_whitney`: for each chapter, its page, or None when the fetch
   * failed or the page had no content section; such chapters add nothing.
   */
  method ScrapeWhitney(chapters: seq<(string, Option<Page>)>, hash: string -> int) returns (chunks: seq<Chunk>)
    ensures chunks == WhitneyAll(chapters, hash)
  {
    chunks := [];
    for c := 0 to |chapters|
      invariant chunks == WhitneyAll(chapters[..c], hash)
    {
      assert chapters[..c + 1][..c] == chapters[..c];
      var (chapter, page) := chapters[c];
      if page.None? {
        continue;
      }
      var parts := page.value.parts;
      if |parts| >= 3 {
        var pairs := NumberedPairs(parts);
        var numbered := WhitneyPage(chapter, pairs);
        chunks := chunks + numbered;
      } else {
        var fallback := WhitneyFallback(chapter, page.value.text, hash);
        chunks := chunks + fallback;
      }
    }
    assert chapters[..|chapters|] == chapters;
  }

  /** The numbered-paragraph loop of one page. */
  method WhitneyPage(chapter: string, pairs: seq<(string, string)>) returns (chunks: seq<Chunk>)
    ensures chunks == WhitneyNumbered(chapter, pairs)
  {
    chunks := [];
    var wi := 0;
    for i := 0 to |pairs|
      invariant wi == |chunks| && chunks == WhitneyNumbered(chapter, pairs[..i])
    {
      assert pairs[..i + 1][..i] == pairs[..i];
      if |Trim(pairs[i].1)| < 40 {
        continue;
      }
      wi := wi + 1;
      chunks := chunks + [WhitneyChunk(chapter, pairs[i], wi)];
    }
    assert pairs[..|pairs|] == pairs;
  }

  /** The chunks of all chapters, in chapter order. */
  function WhitneyAll(chapters: seq<(string, Option<Page>)>, hash: string -> int): seq<Chunk>
  {
    if chapters == [] then []
    else
      var last := chapters[|chapters| - 1];
      WhitneyAll(chapters[..|chapters| - 1], hash) + (if last.1.Some? then WhitneyChapter(last.0, last.1.value, hash) else [])
  }

  // ---------------------------------------------------------------------------
  // Monier-Williams

  /** The most dictionary chunks loaded. */
  const MaxMwChunks := 45000

  /**
   * Characters Python's `\w` accepts in a headword: ASCII letters, digits,
   * '_', and the letters from U+00C0 on (the IAST and Devanagari range),
   * except the multiplication and division signs and the general punctuation block.
   */
  predicate IsWordChar(c: char)
  {
    ('a' <= c <= 'z') || ('A' <= c <= 'Z') || ('0' <= c <= '9') || c == '_'
    || (c >= '\U{00C0}' && c != '\U{00D7}' && c != '\U{00F7}' && !('\U{2000}' <= c <= '\U{206F}'))
  }

  /** `re.sub(r"[^a-zA-Z0-9_\w]", "_", s)`. */
  function Sanitize(s: string): (r: string)
    ensures |r| == |s| && forall i :: 0 <= i < |r| ==> IsWordChar(r[i])
    ensures forall i :: 0 <= i < |s| && IsWordChar(s[i]) ==> r[i] == s[i]
  {
    if s == [] then [] else [if IsWordChar(s[0]) then s[0] else '_'] + Sanitize(s[1..])
  }

  /** The chunk of the headword `head` with stripped body `body`, as the `index`-th entry. */
  function MwChunk(head: string, body: string, index: nat): Chunk
  {
    Chunk("mw_" + NatToString(index) + "_" + Sanitize(head[..if |head| < 35 then |head| else 35]),
          if body != "" then "Monier-Williams: " + head + " — " + body else "Monier-Williams: " + head,
          [("source", "mw"), ("type", "dictionary"), ("head", head[..if |head| < 80 then |head| else 80]), ("topic", "dictionary")])
  }

  /** A match is loaded when its stripped headword is not empty. */
  predicate HasHead(m: (string, string))
  {
    Trim(m.0) != ""
  }

  /** The chunks of the (headword, raw body) matches, in order, stopping at the cap. */
  function MwFrom(matches: seq<(string, string)>): (r: seq<Chunk>)
    ensures |r| <= MaxMwChunks
  {
    if matches == [] then []
    else
      var prev := MwFrom(matches[..|matches| - 1]);
      var m := matches[|matches| - 1];
      if HasHead(m) && |prev| < MaxMwChunks then prev + [MwChunk(Trim(m.0), Trim(StripXmlTags(m.1)), |prev|)] else prev
  }

  /** The number of matches with a headword. */
  function CountHeads(matches: seq<(string, string)>): nat
  {
    |Filter(matches, HasHead)|
  }

  /**
   * The dictionary loader keeps every headed entry until 45000 are loaded:
   * its chunk count is the smaller of the cap and the number of headed
   * matches, and the chunk at position k is numbered k.
   */
  lemma {:induction false} MwFromSpec(matches: seq<(string, string)>)
    ensures var cs := MwFrom(matches);
      |cs| == (if CountHeads(matches) < MaxMwChunks then CountHeads(matches) else MaxMwChunks)
      && forall k :: 0 <= k < |cs| ==> StartsWith(cs[k].id, "mw_" + NatToString(k) + "_")
  {
    MwFromCount(matches);
    MwFromIds(matches);
  }

  lemma {:induction false} MwFromCount(matches: seq<(string, string)>)
    ensures |MwFrom(matches)| == (if CountHeads(matches) < MaxMwChunks then CountHeads(matches) else MaxMwChunks)
  {
    if matches != [] {
      var init := matches[..|matches| - 1];
      MwFromCount(init);
      assert Filter(matches, HasHead) == Filter(init, HasHead) + (if HasHead(matches[|matches| - 1]) then [matches[|matches| - 1]] else []);
    }
  }

  lemma {:induction false} MwFromIds(matches: seq<(string, string)>)
    ensures var cs := MwFrom(matches);
      forall k :: 0 <= k < |cs| ==> StartsWith(cs[k].id, "mw_" + NatToString(k) + "_")
  {
    if matches != [] {
      var init := matches[..|matches| - 1];
      MwFromIds(init);
      var prev := MwFrom(init);
      var m := matches[|matches| - 1];
      if HasHead(m) && |prev| < MaxMwChunks {
        var c := MwChunk(Trim(m.0), Trim(StripXmlTags(m.1)), |prev|);
        MwChunkId(Trim(m.0), Trim(StripXmlTags(m.1)), |prev|);
        var cs := prev + [c];
        forall k | 0 <= k < |cs| ensures StartsWith(cs[k].id, "mw_" + NatToString(k) + "_") {
          if k < |prev| {
            assert cs[k] == prev[k];
          }
        }
      }
    }
  }

  /** The id of the `index`-th dictionary chunk starts with its number. */
  lemma MwChunkId(head: string, body: string, index: nat)
    ensures StartsWith(MwChunk(head, body, index).id, "mw_" + NatToString(index) + "_")
  {
    var p := "mw_" + NatToString(index) + "_";
    var id := MwChunk(head, body, index).id;
    assert id[..|p|] == p;
  }

  /** `load_mw_cologne`: `matches` are the headword and body the entry pattern found, or None without a file. */
  method LoadMwCologne(matches: Option<seq<(string, string)>>) returns (chunks: seq<Chunk>)
    ensures matches.None? ==> chunks == []
    ensures matches.Some? ==> chunks == MwFrom(matches.value)
  {
    chunks := [];
    if matches.None? {
      return;
    }
    var ms := matches.value;
    for i := 0 to |ms|
      invariant chunks == MwFrom(ms[..i])
    {
      assert ms[..i + 1][..i] == ms[..i];
      var head := Trim(ms[i].0);
      var body := Trim(StripXmlTags(ms[i].1));
      if head != "" && |chunks| < MaxMwChunks {
        chunks := chunks + [MwChunk(head, body, |chunks|)];
      }
    }
    assert ms[..|ms|] == ms;
  }
}
