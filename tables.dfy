/**
 * A table is a map from primary key to row. A `SELECT ... WHERE` without `ORDER BY` is
 * modelled as a scan in ascending key order, the order in which an auto-increment table
 * hands its rows back.
 */
module Tables {

  /** The keys below `bound` whose rows satisfy `keep`, ascending. */
  function SelectKeys<T>(m: map<nat, T>, bound: nat, keep: T -> bool): (ks: seq<nat>)
    ensures forall i :: 0 <= i < |ks| ==> ks[i] in m && ks[i] < bound && keep(m[ks[i]])
    ensures forall i, j :: 0 <= i < j < |ks| ==> ks[i] < ks[j]
    ensures forall k :: k in m && k < bound && keep(m[k]) ==> k in ks
    decreases bound
  {
    if bound == 0 then []
    else
      var k := bound - 1;
      SelectKeys(m, k, keep) + (if k in m && keep(m[k]) then [k] else [])
  }

  /** The rows stored under the keys `ks`, in that order. */
  function Rows<T>(m: map<nat, T>, ks: seq<nat>): (rows: seq<T>)
    requires forall i :: 0 <= i < |ks| ==> ks[i] in m
    ensures |rows| == |ks|
    ensures forall i :: 0 <= i < |ks| ==> rows[i] == m[ks[i]]
  {
    seq(|ks|, i requires 0 <= i < |ks| => m[ks[i]])
  }

  /** A scan below `bound` sees only the keys below `bound`. */
  lemma {:induction false} SelectKeysFrame<T>(m1: map<nat, T>, m2: map<nat, T>, bound: nat, keep: T -> bool)
    requires forall k :: k < bound ==> (k in m1 <==> k in m2)
    requires forall k :: k < bound && k in m1 ==> m1[k] == m2[k]
    ensures SelectKeys(m1, bound, keep) == SelectKeys(m2, bound, keep)
    decreases bound
  {
    if bound > 0 {
      SelectKeysFrame(m1, m2, bound - 1, keep);
    }
  }

  /** Adding a selected row under the scan's top key appends that key. */
  lemma SelectKeysExtend<T>(m: map<nat, T>, bound: nat, keep: T -> bool, row: T)
    requires forall k :: k in m ==> k < bound
    requires keep(row)
    ensures SelectKeys(m[bound := row], bound + 1, keep) == SelectKeys(m, bound, keep) + [bound]
  {
    SelectKeysFrame(m[bound := row], m, bound, keep);
  }

  /** Adding a row the scan does not select, under the scan's top key, leaves the scan as it was. */
  lemma SelectKeysSkip<T>(m: map<nat, T>, bound: nat, keep: T -> bool, row: T)
    requires forall k :: k in m ==> k < bound
    requires !keep(row)
    ensures SelectKeys(m[bound := row], bound + 1, keep) == SelectKeys(m, bound, keep)
  {
    SelectKeysFrame(m[bound := row], m, bound, keep);
  }

  /** Rows of a key list extended by one key. */
  lemma RowsAppend<T>(m: map<nat, T>, ks: seq<nat>, k: nat)
    requires forall i :: 0 <= i < |ks| ==> ks[i] in m
    requires k in m
    ensures Rows(m, ks + [k]) == Rows(m, ks) + [m[k]]
  {
  }

  /** Rows read through keys that two tables hold alike are the same. */
  lemma RowsFrame<T>(m1: map<nat, T>, m2: map<nat, T>, ks: seq<nat>)
    requires forall i :: 0 <= i < |ks| ==> ks[i] in m1 && ks[i] in m2 && m1[ks[i]] == m2[ks[i]]
    ensures Rows(m1, ks) == Rows(m2, ks)
  {
  }

  /** The scan after inserting a row under the scan's top key: the old rows, then the new one if it is selected. */
  lemma ScanInsert<T>(m: map<nat, T>, bound: nat, keep: T -> bool, row: T)
    requires forall k :: k in m ==> k < bound
    ensures Rows(m[bound := row], SelectKeys(m[bound := row], bound + 1, keep))
            == Rows(m, SelectKeys(m, bound, keep)) + (if keep(row) then [row] else [])
  {
    var ks := SelectKeys(m, bound, keep);
    RowsFrame(m[bound := row], m, ks);
    if keep(row) {
      SelectKeysExtend(m, bound, keep, row);
      RowsAppend(m[bound := row], ks, bound);
    } else {
      SelectKeysSkip(m, bound, keep, row);
    }
  }

  /** The table scan itself: every key below `bound` in turn, keeping the rows `keep` selects. */
  method Scan<T>(m: map<nat, T>, bound: nat, keep: T -> bool) returns (rows: seq<T>)
    ensures rows == Rows(m, SelectKeys(m, bound, keep))
  {
    rows := [];
    var k := 0;
    while k < bound
      invariant k <= bound
      invariant rows == Rows(m, SelectKeys(m, k, keep))
    {
      if k in m && keep(m[k]) {
        RowsAppend(m, SelectKeys(m, k, keep), k);
        rows := rows + [m[k]];
      }
      k := k + 1;
    }
  }

  /** A scan whose condition only the row under `key` can meet selects that key alone, if it is stored below `bound`. */
  lemma {:induction false} SelectSingleKey<T>(m: map<nat, T>, bound: nat, keep: T -> bool, key: nat)
    requires forall k :: k in m && keep(m[k]) ==> k == key
    requires key in m ==> keep(m[key])
    ensures SelectKeys(m, bound, keep) == if key in m && key < bound then [key] else []
    decreases bound
  {
    if bound > 0 {
      SelectSingleKey(m, bound - 1, keep, key);
    }
  }
  /** How many keys below `bound` hold a row that `keep` selects. */
  function Count<T>(m: map<nat, T>, bound: nat, keep: T -> bool): nat
    decreases bound
  {
    if bound == 0 then 0
    else Count(m, bound - 1, keep) + (if bound - 1 in m && keep(m[bound - 1]) then 1 else 0)
  }

  /** The count is the length of the scan. */
  lemma {:induction false} CountSelected<T>(m: map<nat, T>, bound: nat, keep: T -> bool)
    ensures Count(m, bound, keep) == |SelectKeys(m, bound, keep)|
    decreases bound
  {
    if bound > 0 {
      CountSelected(m, bound - 1, keep);
    }
  }

  /** Two counts agree when the same keys are selected below the first bound and none between the bounds. */
  lemma {:induction false} CountAgree<T>(m1: map<nat, T>, b1: nat, keep1: T -> bool, m2: map<nat, T>, b2: nat, keep2: T -> bool)
    requires b1 <= b2
    requires forall k :: k < b1 ==> (k in m1 && keep1(m1[k]) <==> k in m2 && keep2(m2[k]))
    requires forall k :: b1 <= k < b2 && k in m2 ==> !keep2(m2[k])
    ensures Count(m1, b1, keep1) == Count(m2, b2, keep2)
    decreases b2
  {
    if b1 < b2 {
      CountAgree(m1, b1, keep1, m2, b2 - 1, keep2);
    } else if b1 > 0 {
      CountAgree(m1, b1 - 1, keep1, m2, b2 - 1, keep2);
    }
  }

  /** A condition no stored row satisfies counts nothing. */
  lemma {:induction false} CountNone<T>(m: map<nat, T>, bound: nat, keep: T -> bool)
    requires forall k :: k in m ==> !keep(m[k])
    ensures Count(m, bound, keep) == 0
    decreases bound
  {
    if bound > 0 {
      CountNone(m, bound - 1, keep);
    }
  }

  /** Rewriting one stored row changes the count by whether the old and the new row are selected. */
  lemma {:induction false} CountUpdate<T>(m: map<nat, T>, bound: nat, keep: T -> bool, k: nat, v: T)
    requires k in m && k < bound
    ensures Count(m[k := v], bound, keep) + (if keep(m[k]) then 1 else 0)
            == Count(m, bound, keep) + (if keep(v) then 1 else 0)
    decreases bound
  {
    if bound - 1 == k {
      CountAgree(m[k := v], k, keep, m, k, keep);
    } else {
      CountUpdate(m, bound - 1, keep, k, v);
    }
  }

  /** A condition that every selected row also meets counts at least as many keys. */
  lemma {:induction false} CountWeaker<T>(m: map<nat, T>, bound: nat, keep1: T -> bool, keep2: T -> bool)
    requires forall k :: k in m && keep1(m[k]) ==> keep2(m[k])
    ensures Count(m, bound, keep1) <= Count(m, bound, keep2)
    decreases bound
  {
    if bound > 0 {
      CountWeaker(m, bound - 1, keep1, keep2);
    }
  }
}
