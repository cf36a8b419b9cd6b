/**
 * The HTTP layer of the games: turning a challenge's meta, which holds a
 * live session object, into JSON for the client, and turning the JSON the
 * client sends back into a challenge with a live session again.
 */
module GamesRouter {
  import opened Wrappers
  import opened Text
  import opened Sorting
  import opened Tables
  import opened JsonValues
  import opened GameEngine
  import opened DhatuDash

  // ---------------------------------------------------------------------------
  // Session <-> JSON

  /** The JSON object a session is sent as; `listing` is the order `list(tree)` happens to produce. */
  function SessionJson(d: SessionData, listing: seq<string>): Json
  {
    JObj([("root_id", JStr(d.rootId)), ("root_iast", JStr(d.rootIast)), ("root_meaning", JStr(d.rootMeaning)),
          ("root_devanagari", JStr(d.rootDevanagari)), ("tree", JArr(Strings(listing))),
          ("valid_forms", JArr(Strings(d.validForms))), ("challenge_count", JInt(d.challengeCount))])
  }

  /** A list that holds exactly the elements of a set, each once. */
  ghost predicate ListsSet(listing: seq<string>, s: set<string>)
  {
    (forall x :: x in listing <==> x in s) && forall i, j :: 0 <= i < j < |listing| ==> listing[i] != listing[j]
  }

  function StringField(fields: Table<Json>, key: string): Option<string>
  {
    match GetOr(fields, key, JStr(""))
    case JStr(s) => Some(s)
    case _ => None
  }

  function StringsField(fields: Table<Json>, key: string): Option<seq<string>>
  {
    match GetOr(fields, key, JArr([]))
    case JArr(items) => AsStrings(items)
    case _ => None
  }

  function IntField(fields: Table<Json>, key: string): Option<int>
  {
    match GetOr(fields, key, JInt(0))
    case JInt(i) => Some(i)
    case _ => None
  }

  /**
   * The session the evaluate route rebuilds from a JSON object: each field
   * with its default when missing. `None` when a field has another JSON
   * type than the one a session is sent with.
   */
  function RestoreSession(j: Json): (r: Option<SessionData>)
    requires j.JObj?
    ensures r.Some? <==> (StringField(j.fields, "root_id").Some? && StringField(j.fields, "root_iast").Some?
      && StringField(j.fields, "root_meaning").Some? && StringField(j.fields, "root_devanagari").Some?
      && StringsField(j.fields, "valid_forms").Some? && StringsField(j.fields, "tree").Some?
      && IntField(j.fields, "challenge_count").Some?)
    ensures r.Some? ==> (r.value.rootId == StringField(j.fields, "root_id").value
      && r.value.validForms == StringsField(j.fields, "valid_forms").value
      && (forall x :: x in r.value.tree <==> x in StringsField(j.fields, "tree").value)
      && r.value.challengeCount == IntField(j.fields, "challenge_count").value)
  {
    var f := j.fields;
    var rootId := StringField(f, "root_id");
    var rootIast := StringField(f, "root_iast");
    var rootMeaning := StringField(f, "root_meaning");
    var rootDevanagari := StringField(f, "root_devanagari");
    var validForms := StringsField(f, "valid_forms");
    var tree := StringsField(f, "tree");
    var count := IntField(f, "challenge_count");
    if rootId.Some? && rootIast.Some? && rootMeaning.Some? && rootDevanagari.Some? && validForms.Some? && tree.Some? && count.Some? then
      Some(SessionData(rootId.value, rootIast.value, rootMeaning.value, rootDevanagari.value, validForms.value,
        (set x | x in tree.value), count.value))
    else None
  }

  /** An empty object restores to a session with every field at its default. */
  lemma EmptyObjectRestoresDefaults()
    ensures RestoreSession(JObj([])) == Some(SessionData("", "", "", "", [], {}, 0))
  {
    var r := RestoreSession(JObj([]));
    assert AsStrings([]) == Some([]);
    assert r.value.tree == {};
  }

  lemma AsStringsOfStrings(ss: seq<string>)
    ensures AsStrings(Strings(ss)) == Some(ss)
  {
    var r := AsStrings(Strings(ss));
    assert r.Some?;
    assert |r.value| == |Strings(r.value)| == |ss|;
    forall i | 0 <= i < |ss|
      ensures r.value[i] == ss[i]
    {
      assert JStr(r.value[i]) == Strings(r.value)[i] == Strings(ss)[i] == JStr(ss[i]);
    }
    assert r.value == ss;
  }

  /** The keys a session is sent with, each once. */
  lemma SessionJsonKeys(d: SessionData, listing: seq<string>)
    ensures DistinctKeys(SessionJson(d, listing).fields)
  {
    var f := SessionJson(d, listing).fields;
    assert f[0].0 == "root_id" && f[1].0 == "root_iast" && f[2].0 == "root_meaning" && f[3].0 == "root_devanagari";
    assert f[4].0 == "tree" && f[5].0 == "valid_forms" && f[6].0 == "challenge_count";
    assert "root_id"[5] == 'i' && "root_iast"[5] == 'i' && "root_meaning"[5] == 'm' && "root_devanagari"[5] == 'd';
    assert "root_iast"[6] == 'a' && "root_id"[6] == 'd';
  }

  /**
   * Sending a session and restoring it gives back the same root fields, the
   * same valid forms in order, the same tree as a set, and the same count,
   * whatever order the tree was listed in.
   */
  lemma SessionRoundTrip(d: SessionData, listing: seq<string>)
    requires ListsSet(listing, d.tree)
    ensures RestoreSession(SessionJson(d, listing)) == Some(d)
  {
    var f := SessionJson(d, listing).fields;
    SessionJsonFields(d, listing);
    assert (set x | x in listing) == d.tree;
  }

  /** Each field of a sent session reads back as the value it was sent with. */
  lemma SessionJsonFields(d: SessionData, listing: seq<string>)
    ensures var f := SessionJson(d, listing).fields;
      && StringField(f, "root_id") == Some(d.rootId) && StringField(f, "root_iast") == Some(d.rootIast)
      && StringField(f, "root_meaning") == Some(d.rootMeaning) && StringField(f, "root_devanagari") == Some(d.rootDevanagari)
      && StringsField(f, "tree") == Some(listing) && StringsField(f, "valid_forms") == Some(d.validForms)
      && IntField(f, "challenge_count") == Some(d.challengeCount)
  {
    SessionJsonRootFields(d, listing);
    SessionJsonListFields(d, listing);
  }

  lemma SessionJsonRootFields(d: SessionData, listing: seq<string>)
    ensures var f := SessionJson(d, listing).fields;
      && StringField(f, "root_id") == Some(d.rootId) && StringField(f, "root_iast") == Some(d.rootIast)
      && StringField(f, "root_meaning") == Some(d.rootMeaning) && StringField(f, "root_devanagari") == Some(d.rootDevanagari)
  {
    var f := SessionJson(d, listing).fields;
    SessionJsonKeys(d, listing);
    StringFieldOf(f, 0, d.rootId);
    StringFieldOf(f, 1, d.rootIast);
    StringFieldOf(f, 2, d.rootMeaning);
    StringFieldOf(f, 3, d.rootDevanagari);
  }

  lemma SessionJsonListFields(d: SessionData, listing: seq<string>)
    ensures var f := SessionJson(d, listing).fields;
      && StringsField(f, "tree") == Some(listing) && StringsField(f, "valid_forms") == Some(d.validForms)
      && IntField(f, "challenge_count") == Some(d.challengeCount)
  {
    var f := SessionJson(d, listing).fields;
    SessionJsonKeys(d, listing);
    AsStringsOfStrings(listing);
    AsStringsOfStrings(d.validForms);
    StringsFieldOf(f, 4, listing);
    StringsFieldOf(f, 5, d.validForms);
    assert Get(f, f[6].0) == Some(f[6].1);
  }

  lemma StringFieldOf(f: Table<Json>, i: nat, s: string)
    requires DistinctKeys(f) && i < |f| && f[i].1 == JStr(s)
    ensures StringField(f, f[i].0) == Some(s)
  {
    assert Get(f, f[i].0) == Some(f[i].1);
  }

  lemma StringsFieldOf(f: Table<Json>, i: nat, ss: seq<string>)
    requires DistinctKeys(f) && i < |f| && f[i].1 == JArr(Strings(ss)) && AsStrings(Strings(ss)) == Some(ss)
    ensures StringsField(f, f[i].0) == Some(ss)
  {
    assert Get(f, f[i].0) == Some(f[i].1);
  }

  // ---------------------------------------------------------------------------
  // `_serialize_meta`

  /** The JSON one meta entry is sent as: a session by its fields, anything else as it is. */
  ghost function EntryJson(v: MetaValue): Json
    reads if v.Live? then {v.session} else {}
  {
    match v
    case Live(s) => SessionJson(s.Data(), SortedOf(s.tree))
    case Plain(j) => j
  }

  /** Every live session sits under "session". */
  predicate SessionsOnlyUnderSession(meta: Meta)
  {
    forall i :: 0 <= i < |meta| && meta[i].1.Live? ==> meta[i].0 == "session"
  }

  /** Each entry of a meta with its value as JSON. */
  ghost function Rendered(meta: Meta): (r: Table<Json>)
    reads SessionsIn(meta)
    ensures |r| == |meta| && forall i :: 0 <= i < |meta| ==> r[i] == (meta[i].0, EntryJson(meta[i].1))
  {
    seq(|meta|, i reads SessionsIn(meta) requires 0 <= i < |meta| =>
      assert meta[i].1.Live? ==> meta[i].1.session in SessionsIn(meta);
      (meta[i].0, EntryJson(meta[i].1)))
  }

  /** The loop of `_serialize_meta` over rendered entries: every key but "exhausted" is copied, in order. */
  function CopyEntries<V>(t: Table<V>): Table<V>
  {
    if t == [] then []
    else
      var (k, v) := t[|t| - 1];
      if k == "exhausted" then CopyEntries(t[..|t| - 1]) else Put(CopyEntries(t[..|t| - 1]), k, v)
  }

  /** The copy has each key once. */
  lemma {:induction false} CopyEntriesDistinct<V>(t: Table<V>)
    ensures DistinctKeys(CopyEntries(t))
  {
    if t != [] {
      var init := t[..|t| - 1];
      CopyEntriesDistinct(init);
      var (k, v) := t[|t| - 1];
      if k != "exhausted" {
        PutGet(CopyEntries(init), k, v, k);
      }
    }
  }

  /** The copy keeps every key but "exhausted". */
  lemma {:induction false} CopyEntriesKeys<V>(t: Table<V>)
    ensures forall k :: HasKey(CopyEntries(t), k) <==> HasKey(t, k) && k != "exhausted"
  {
    if t != [] {
      var init := t[..|t| - 1];
      CopyEntriesKeys(init);
      var (k, v) := t[|t| - 1];
      var r := CopyEntries(t);
      forall key
        ensures HasKey(r, key) <==> HasKey(t, key) && key != "exhausted"
      {
        if k != "exhausted" {
          PutHasKey(CopyEntries(init), k, v, key);
        }
        if HasKey(t, key) {
          var i :| 0 <= i < |t| && t[i].0 == key;
          if i < |init| {
            assert init[i].0 == key;
          }
        }
        if HasKey(init, key) {
          var i :| 0 <= i < |init| && init[i].0 == key;
          assert t[i].0 == key;
        }
      }
    }
  }

  /** `d[k] = v` adds `k` to the keys and keeps the others. */
  lemma PutHasKey<V>(t: Table<V>, k: string, v: V, key: string)
    ensures HasKey(Put(t, k, v), key) <==> HasKey(t, key) || key == k
  {
    var r := Put(t, k, v);
    if HasKey(t, key) {
      var i :| 0 <= i < |t| && t[i].0 == key;
      assert r[i].0 == key;
    }
    if key == k && !HasKey(t, k) {
      assert r[|t|].0 == k;
    }
  }

  /** With distinct keys, every key but "exhausted" keeps its value. */
  lemma CopyEntriesValues<V>(t: Table<V>)
    requires DistinctKeys(t)
    ensures forall i :: 0 <= i < |t| && t[i].0 != "exhausted" ==> Get(CopyEntries(t), t[i].0) == Some(t[i].1)
  {
    forall i | 0 <= i < |t| && t[i].0 != "exhausted" {
      CopyEntriesValueAt(t, i);
    }
  }

  lemma {:induction false} CopyEntriesValueAt<V>(t: Table<V>, i: nat)
    requires DistinctKeys(t) && i < |t| && t[i].0 != "exhausted"
    ensures Get(CopyEntries(t), t[i].0) == Some(t[i].1)
  {
    var init := t[..|t| - 1];
    var (k, v) := t[|t| - 1];
    CopyEntriesDistinct(init);
    if i == |t| - 1 {
      PutGet(CopyEntries(init), k, v, k);
    } else {
      assert init[i] == t[i];
      CopyEntriesValueAt(init, i);
      if k != "exhausted" {
        PutGet(CopyEntries(init), k, v, t[i].0);
      }
    }
  }

  /** The JSON sent for a meta, as `_serialize_meta` builds it. */
  ghost function Serialized(meta: Meta): Table<Json>
    reads SessionsIn(meta)
  {
    var entries := CopyEntries(Rendered(meta));
    if meta == [] then []
    else if ExhaustedFlag(meta) then Put(entries, "exhausted", JBool(true))
    else entries
  }

  /**
   * An empty meta is sent as {}; every key but "exhausted" is copied, a
   * session as its fields; "exhausted" appears, as true, only when it was
   * truthy.
   */
  lemma SerializedSpec(meta: Meta)
    requires DistinctKeys(meta)
    ensures var r := Serialized(meta);
      && (meta == [] ==> r == [])
      && DistinctKeys(r)
      && (forall k :: k != "exhausted" ==> (HasKey(r, k) <==> HasKey(meta, k)))
      && (HasKey(r, "exhausted") <==> ExhaustedFlag(meta))
      && (ExhaustedFlag(meta) ==> Get(r, "exhausted") == Some(JBool(true)))
      && (forall i :: 0 <= i < |meta| && meta[i].0 != "exhausted" ==> Get(r, meta[i].0) == Some(EntryJson(meta[i].1)))
  {
    var t := Rendered(meta);
    var entries := CopyEntries(t);
    assert DistinctKeys(t);
    CopyEntriesDistinct(t);
    CopyEntriesKeys(t);
    CopyEntriesValues(t);
    forall k
      ensures HasKey(t, k) <==> HasKey(meta, k)
    {
      if HasKey(meta, k) {
        var i :| 0 <= i < |meta| && meta[i].0 == k;
        assert t[i].0 == k;
      }
    }
    if meta != [] && ExhaustedFlag(meta) {
      forall other {
        PutGet(entries, "exhausted", JBool(true), other);
      }
    }
  }

  /** `_serialize_meta`. */
  method SerializeMeta(meta: Meta) returns (safe: Table<Json>)
    requires SessionsOnlyUnderSession(meta)
    ensures safe == Serialized(meta)
  {
    if meta == [] {
      return [];
    }
    ghost var sessions := SessionsIn(meta);
    assert forall o :: o in sessions ==> allocated(o);
    ghost var rendered := Rendered(meta);
    safe := [];
    for i := 0 to |meta|
      invariant safe == CopyEntries(rendered[..i])
    {
      var (k, v) := meta[i];
      assert rendered[..i + 1][..i] == rendered[..i];
      if k == "session" && v.Live? {
        var d := v.session.Data();
        assert rendered[i].1 == SessionJson(d, SortedOf(d.tree));
        var listing := SortedListing(d.tree);
        safe := Put(safe, k, SessionJson(d, listing));
      } else if k == "valid_forms" {
        safe := Put(safe, k, v.json);
      } else if k != "exhausted" {
        safe := Put(safe, k, v.json);
      }
    }
    assert rendered[..|meta|] == rendered;
    var exhausted := Get(meta, "exhausted");
    if exhausted.Some? && MetaTruthy(exhausted.value) {
      safe := Put(safe, "exhausted", JBool(true));
    }
  }

  /**
   * What the client gets back after an answer: the session's current
   * fields, which the next request restores unchanged.
   */
  lemma SerializedSessionRestores(meta: Meta, s: DhatuSession)
    requires DistinctKeys(meta) && Get(meta, "session") == Some(Live(s))
    ensures var r := Serialized(meta);
      Get(r, "session").Some? && Get(r, "session").value.JObj? && RestoreSession(Get(r, "session").value) == Some(s.Data())
  {
    var i :| 0 <= i < |meta| && meta[i] == ("session", Live(s));
    assert Get(Serialized(meta), "session") == Some(SessionJson(s.Data(), SortedOf(s.tree))) by {
      SerializedSpec(meta);
    }
    SortedListsSet(s.tree);
    SessionRoundTrip(s.Data(), SortedOf(s.tree));
  }

  /** The increasing listing of a set holds each element once. */
  lemma SortedListsSet(s: set<string>)
    ensures ListsSet(SortedOf(s), s)
  {
    var r := SortedOf(s);
    forall i, j | 0 <= i < j < |r|
      ensures r[i] != r[j]
    {
      StrLessIrreflexive(r[i]);
    }
  }

  // ---------------------------------------------------------------------------
  // Requests

  /** The fields a client may send for a challenge; `None` is a missing key. */
  datatype ChallengeBody = ChallengeBody(
    challengeId: Option<string>, gameType: Option<string>, prompt: Option<string>, correctAnswer: Option<Json>,
    sourceChunkIds: Option<seq<string>>, topic: Option<string>, meta: Option<Table<Json>>)

  /** A list answer stays; any other truthy answer becomes a one-element list; a missing or falsy one becomes []. */
  function WrapAnswer(ans: Option<Json>): (r: Json)
    ensures r.JArr?
    ensures ans.Some? && ans.value.JArr? ==> r == ans.value
    ensures ans.Some? && !ans.value.JArr? && Truthy(ans.value) ==> r == JArr([ans.value])
    ensures ans.None? || !Truthy(ans.value) ==> r == JArr([])
  {
    if ans.Some? && ans.value.JArr? then ans.value
    else if ans.Some? && Truthy(ans.value) then JArr([ans.value])
    else JArr([])
  }

  /** `_challenge_from_body`. */
  function ChallengeFromBody(body: ChallengeBody): (c: Challenge<Json>)
    ensures c.correctAnswer == WrapAnswer(body.correctAnswer)
    ensures c.challengeId == body.challengeId.GetOr("") && c.gameType == body.gameType.GetOr("dhatu_dash")
    ensures c.topic == body.topic.GetOr("dhatu") && c.difficulty == 0.5
    ensures c.sourceChunkIds == body.sourceChunkIds.GetOr([]) && c.meta == body.meta.GetOr([])
  {
    NewChallenge(body.challengeId.GetOr(""), body.gameType.GetOr("dhatu_dash"), body.prompt.GetOr(""),
      WrapAnswer(body.correctAnswer), body.sourceChunkIds, body.topic.GetOr("dhatu"), 0.5, body.meta)
  }

  /**
   * The evaluate route's reading of `correct_answer`: JSON-decoded only when
   * it starts with "[", and kept as a one-element list when it does not or
   * when decoding fails. `decode` is `json.loads`, `None` being a failure.
   */
  function ParseCorrectAnswer(raw: string, decode: string -> Option<Json>): (r: Json)
    ensures !StartsWith(raw, "[") ==> r == JArr([JStr(raw)])
    ensures StartsWith(raw, "[") && decode(raw).Some? ==> r == decode(raw).value
    ensures StartsWith(raw, "[") && decode(raw).None? ==> r == JArr([JStr(raw)])
  {
    if StartsWith(raw, "[") then decode(raw).GetOr(JArr([JStr(raw)])) else JArr([JStr(raw)])
  }

  /** A plain answer such as "bhavati" is never decoded. */
  lemma PlainAnswerIsWrapped(decode: string -> Option<Json>)
    ensures ParseCorrectAnswer("bhavati", decode) == JArr([JStr("bhavati")])
  {
    assert "bhavati"[0] != '[';
  }

  /** The meta as the evaluate route hands it to the engine: every value plain. */
  function PlainMeta(meta: Table<Json>): (r: Meta)
    ensures |r| == |meta| && forall i :: 0 <= i < |meta| ==> r[i] == (meta[i].0, Plain(meta[i].1))
  {
    seq(|meta|, i requires 0 <= i < |meta| => (meta[i].0, Plain(meta[i].1)))
  }

  /**
   * The session restore of the evaluate route: a "session" that is a JSON
   * object is replaced by a new live session built from it; any other
   * value is left as it is. `None` when the object cannot be restored.
   */
  method RestoreMeta(meta: Table<Json>) returns (r: Option<Meta>)
    ensures var v := Get(meta, "session");
      && (v.None? || !v.value.JObj? ==> r == Some(PlainMeta(meta)))
      && (v.Some? && v.value.JObj? && RestoreSession(v.value).None? ==> r.None?)
      && (v.Some? && v.value.JObj? && RestoreSession(v.value).Some? ==>
            r.Some? && Get(r.value, "session").Some? && Get(r.value, "session").value.Live?
            && fresh(Get(r.value, "session").value.session)
            && Get(r.value, "session").value.session.Data() == RestoreSession(v.value).value
            && r.value == Put(PlainMeta(meta), "session", Get(r.value, "session").value))
  {
    var plain := PlainMeta(meta);
    var v := Get(meta, "session");
    if v.None? || !v.value.JObj? {
      return Some(plain);
    }
    var restored := RestoreSession(v.value);
    if restored.None? {
      return None;
    }
    var s := new DhatuSession(restored.value);
    PutGetAny(plain, Live(s));
    return Some(Put(plain, "session", Live(s)));
  }

  lemma PutGetAny(t: Meta, v: MetaValue)
    ensures Get(Put(t, "session", v), "session") == Some(v)
  {
    if HasKey(t, "session") {
      var i :| 0 <= i < |t| && t[i].0 == "session";
      SetValueFirst(t, "session", v);
    } else {
      GetAppend(t, "session", v);
    }
  }

  lemma {:induction false} SetValueFirst(t: Meta, k: string, v: MetaValue)
    requires HasKey(t, k)
    ensures Get(SetValue(t, k, v), k) == Some(v)
  {
    if t[0].0 != k {
      SetValueFirst(t[1..], k, v);
      assert SetValue(t, k, v)[1..] == SetValue(t[1..], k, v);
    }
  }

  lemma {:induction false} GetAppend(t: Meta, k: string, v: MetaValue)
    requires !HasKey(t, k)
    ensures Get(t + [(k, v)], k) == Some(v)
  {
    if t != [] {
      GetAppend(t[1..], k, v);
      assert (t + [(k, v)])[1..] == t[1..] + [(k, v)];
    }
  }
}
