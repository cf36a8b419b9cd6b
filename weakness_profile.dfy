/**
 * The per-learner weakness table `phoneme_errors`: one counter per
 * (user_id, error_type), incremented once per reported occurrence and read
 * back most frequent first. The SQLite table is modelled as a map field.
 */
module WeaknessProfile {

  type Key = (string, string)

  /** The counter map after one UPSERT: a new row starts at 1, an existing one grows by 1. */
  function Bump(counts: map<Key, nat>, key: Key): map<Key, nat>
  {
    counts[key := (if key in counts then counts[key] else 0) + 1]
  }

  /** The counter map after the UPSERTs for `types`, in list order. */
  function BumpAll(counts: map<Key, nat>, user: string, types: seq<string>): map<Key, nat>
    decreases types
  {
    if types == [] then counts else BumpAll(Bump(counts, (user, types[0])), user, types[1..])
  }

  function CountOr0(counts: map<Key, nat>, key: Key): nat
  {
    if key in counts then counts[key] else 0
  }

  /**
   * Each occurrence of a type in the list adds one to that user's counter, so
   * a duplicated type adds two, and a type seen for the first time gets a row.
   */
  lemma {:induction false} BumpAllCounts(counts: map<Key, nat>, user: string, types: seq<string>, t: string)
    ensures CountOr0(BumpAll(counts, user, types), (user, t)) == CountOr0(counts, (user, t)) + multiset(types)[t]
    ensures (user, t) in BumpAll(counts, user, types) <==> (user, t) in counts || t in types
    decreases types
  {
    if types != [] {
      BumpAllCounts(Bump(counts, (user, types[0])), user, types[1..], t);
      assert types == [types[0]] + types[1..];
    }
  }

  /** Rows of other users, and of types not in the list, are untouched. */
  lemma {:induction false} BumpAllOthers(counts: map<Key, nat>, user: string, types: seq<string>, k: Key)
    requires k.0 != user || k.1 !in types
    ensures k in BumpAll(counts, user, types) <==> k in counts
    ensures k in counts ==> BumpAll(counts, user, types)[k] == counts[k]
    decreases types
  {
    if types != [] {
      BumpAllOthers(Bump(counts, (user, types[0])), user, types[1..], k);
    }
  }

  /** Every stored row has a count of at least 1. */
  ghost predicate Positive(counts: map<Key, nat>)
  {
    forall k :: k in counts ==> counts[k] >= 1
  }

  lemma {:induction false} BumpAllPositive(counts: map<Key, nat>, user: string, types: seq<string>)
    requires Positive(counts)
    ensures Positive(BumpAll(counts, user, types))
    decreases types
  {
    if types != [] {
      BumpAllPositive(Bump(counts, (user, types[0])), user, types[1..]);
    }
  }

  /** The types that have a row for `user`. */
  function TypesOf(counts: map<Key, nat>, user: string): set<string>
  {
    set k | k in counts && k.0 == user :: k.1
  }

  class ErrorStore {
    var counts: map<Key, nat>

    ghost predicate Valid()
      reads this
    {
      Positive(counts)
    }

    constructor ()
      ensures Valid() && counts == map[]
    {
      counts := map[];
    }

    /** `update_user_profile`: one UPSERT per element of `errorTypes`. */
    method UpdateUserProfile(user: string, errorTypes: seq<string>)
      requires Valid()
      modifies this
      ensures Valid()
      ensures counts == BumpAll(old(counts), user, errorTypes)
    {
      ghost var start := counts;
      for i := 0 to |errorTypes|
        invariant BumpAll(start, user, errorTypes) == BumpAll(counts, user, errorTypes[i..])
        invariant Positive(counts)
      {
        counts := Bump(counts, (user, errorTypes[i]));
        assert errorTypes[i..][1..] == errorTypes[i + 1..];
      }
      assert errorTypes[|errorTypes|..] == [];
    }

    /**
     * `get_drill_priority`: the user's (type, count) rows, largest count first.
     * SQL leaves the order of equal counts open; the loop picks any row of
     * largest remaining count.
     */
    method GetDrillPriority(user: string) returns (rows: seq<(string, nat)>)
      requires Valid()
      ensures RowTypes(rows) == TypesOf(counts, user)
      ensures RowsOf(rows, counts, user)
    {
      rows := Ranked(counts, user);
    }
  }

  /** The rows of `user` in `counts`, repeatedly taking a largest remaining count. */
  method Ranked(counts: map<Key, nat>, user: string) returns (rows: seq<(string, nat)>)
    ensures RowTypes(rows) == TypesOf(counts, user)
    ensures RowsOf(rows, counts, user)
  {
    var left := TypesOf(counts, user);
    ghost var all := left;
    TypesOfMeans(counts, user);
    rows := [];
    while left != {}
      invariant RankInv(rows, counts, user, left, all)
      invariant all == TypesOf(counts, user)
      decreases |left|
    {
      var t := LargestCount(counts, user, left);
      RankStep(rows, counts, user, left, all, t);
      rows := rows + [(t, counts[(user, t)])];
      left := left - {t};
    }
  }

  /** The loop invariant of `Ranked`: the rows so far and the types left partition `all`. */
  ghost predicate RankInv(rows: seq<(string, nat)>, counts: map<Key, nat>, user: string, left: set<string>, all: set<string>)
  {
    left !! RowTypes(rows) && left + RowTypes(rows) == all
    && RowsOf(rows, counts, user)
    && Dominates(rows, counts, user, left)
  }

  /** Taking a largest remaining type keeps the loop invariant of `Ranked`. */
  lemma RankStep(rows: seq<(string, nat)>, counts: map<Key, nat>, user: string, left: set<string>, all: set<string>, t: string)
    requires RankInv(rows, counts, user, left, all)
    requires (user, t) in counts && t in left
    requires forall u :: u in left ==> (user, u) in counts && counts[(user, u)] <= counts[(user, t)]
    ensures RankInv(rows + [(t, counts[(user, t)])], counts, user, left - {t}, all)
  {
    RowsSnoc(rows, counts, user, left, t);
  }

  /**
   * The rows are `user`'s stored counters, each type once, in non-increasing
   * order of count.
   */
  ghost predicate RowsOf(rows: seq<(string, nat)>, counts: map<Key, nat>, user: string)
  {
    (forall i :: 0 <= i < |rows| ==> (user, rows[i].0) in counts && rows[i].1 == counts[(user, rows[i].0)])
    && (forall i, j :: 0 <= i < j < |rows| ==> rows[i].1 >= rows[j].1 && rows[i].0 != rows[j].0)
  }

  /** Every listed row counts at least as much as every type still to be listed. */
  ghost predicate Dominates(rows: seq<(string, nat)>, counts: map<Key, nat>, user: string, left: set<string>)
  {
    forall i, t :: 0 <= i < |rows| && t in left && (user, t) in counts ==> rows[i].1 >= counts[(user, t)]
  }

  /** Appending a largest remaining row keeps the rows ordered and exhaustive. */
  lemma RowsSnoc(rows: seq<(string, nat)>, counts: map<Key, nat>, user: string, left: set<string>, t: string)
    requires RowsOf(rows, counts, user)
    requires left !! RowTypes(rows) && (user, t) in counts && t in left
    requires Dominates(rows, counts, user, left)
    requires forall u :: u in left ==> (user, u) in counts && counts[(user, u)] <= counts[(user, t)]
    ensures RowsOf(rows + [(t, counts[(user, t)])], counts, user)
    ensures RowTypes(rows + [(t, counts[(user, t)])]) == RowTypes(rows) + {t}
    ensures Dominates(rows + [(t, counts[(user, t)])], counts, user, left - {t})
  {
    var r := rows + [(t, counts[(user, t)])];
    RowTypesSnoc(rows, (t, counts[(user, t)]));
    forall i | 0 <= i < |rows| ensures rows[i].0 != t {
      assert rows[i].0 in RowTypes(rows);
    }
  }

  lemma TypesOfMeans(counts: map<Key, nat>, user: string)
    ensures forall t :: t in TypesOf(counts, user) <==> (user, t) in counts
  {
    forall t | (user, t) in counts ensures t in TypesOf(counts, user) {
      var k := (user, t);
      assert k.1 == t;
    }
  }

  /** The types named by a list of rows. */
  function RowTypes(rows: seq<(string, nat)>): set<string>
  {
    set i | 0 <= i < |rows| :: rows[i].0
  }

  lemma RowTypesSnoc(rows: seq<(string, nat)>, row: (string, nat))
    ensures RowTypes(rows + [row]) == RowTypes(rows) + {row.0}
  {
    var r := rows + [row];
    assert r[|rows|] == row;
    forall t | t in RowTypes(rows) ensures t in RowTypes(r) {
      var i :| 0 <= i < |rows| && rows[i].0 == t;
      assert r[i] == rows[i];
    }
  }

  /** A type of `left` whose count is largest; any one of them when several tie. */
  method LargestCount(counts: map<Key, nat>, user: string, left: set<string>) returns (t: string)
    requires left != {} && left <= TypesOf(counts, user)
    ensures t in left && (user, t) in counts
    ensures forall u :: u in left ==> (user, u) in counts && counts[(user, u)] <= counts[(user, t)]
  {
    TypesOfMeans(counts, user);
    var rest := left;
    t :| t in rest;
    rest := rest - {t};
    while rest != {}
      invariant rest <= left && t in left && (user, t) in counts
      invariant forall u :: u in left - rest ==> (user, u) in counts && counts[(user, u)] <= counts[(user, t)]
      decreases |rest|
    {
      var u :| u in rest;
      if counts[(user, u)] > counts[(user, t)] {
        t := u;
      }
      rest := rest - {u};
    }
  }
}
