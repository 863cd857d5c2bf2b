/**
 * The node accumulator: a pre-sized table with one row per node, indexed by
 * node id - 1 the way a Python list is indexed, each row holding how many
 * slots contributed to the node and the running sums of their stresses.
 * Also the averaging of that table into report rows.
 */
module NodeTable {
  import opened Wrappers
  import opened SteLayout

  /** A row [count, s1..s6] of output_node. */
  datatype NodeSum = NodeSum(count: nat, sums: Tensor)

  const Untouched: NodeSum := NodeSum(0, [0.0, 0.0, 0.0, 0.0, 0.0, 0.0])

  /** The row `output_node[id - 1]` reaches in a list of `len` rows, if any:
      Python counts a negative index from the end. */
  function RowIndex(id: int, len: nat): (r: Option<nat>)
    ensures r.Some? <==> 0 <= id - 1 + len && id - 1 < len
    ensures r.Some? ==> r.value < len
    ensures 1 <= id <= len ==> r == Some(id - 1)
    ensures r.Some? && id <= 0 ==> r.value == id - 1 + len
  {
    var i := id - 1;
    if 0 <= i < len then Some(i)
    else if 0 <= i + len < len then Some(i + len)
    else None
  }

  /** A row after one more contribution. */
  function Added(ns: NodeSum, s: Tensor): (r: NodeSum)
    ensures r.count == ns.count + 1
    ensures forall j :: 0 <= j < 6 ==> r.sums[j] == ns.sums[j] + s[j]
  {
    NodeSum(ns.count + 1, seq(6, j requires 0 <= j < 6 => ns.sums[j] + s[j]))
  }

  /** The table and real_node_no, the largest id seen. */
  datatype Acc = Acc(table: seq<NodeSum>, maxId: int)

  /** The inner loop over one record's slots (lines 156-165): raise real_node_no to the
      slot's id if larger, then add the slot to its row, or fail on an index out of range. */
  function ApplySlots(table: seq<NodeSum>, maxId: int, slots: seq<Slot>): (r: Result<Acc, Error>)
    decreases |slots|
    ensures r.Ok? <==> forall k :: 0 <= k < |slots| ==> RowIndex(slots[k].id, |table|).Some?
    ensures r.Ok? ==> |r.value.table| == |table| && maxId <= r.value.maxId
    ensures r.Ok? && maxId <= |table| ==> r.value.maxId <= |table|
  {
    if slots == [] then Ok(Acc(table, maxId))
    else
      var s := slots[0];
      var m := Max(maxId, s.id);
      match RowIndex(s.id, |table|)
      case None => Err(IndexError(s.id))
      case Some(r) => ApplySlots(table[r := Added(table[r], s.stress)], m, slots[1..])
  }

  /** How many of `slots` land on row r of a table of `len` rows. */
  function Count(slots: seq<Slot>, len: nat, r: nat): nat
  {
    if slots == [] then 0
    else (if RowIndex(slots[0].id, len) == Some(r) then 1 else 0) + Count(slots[1..], len, r)
  }

  /** The sum of component j of the stresses of the slots that land on row r. */
  function Total(slots: seq<Slot>, len: nat, r: nat, j: nat): real
    requires j < 6
  {
    if slots == [] then 0.0
    else (if RowIndex(slots[0].id, len) == Some(r) then slots[0].stress[j] else 0.0) + Total(slots[1..], len, r, j)
  }

  /** How many of `slots` carry node id `id`. */
  function Occurrences(slots: seq<Slot>, id: int): nat
  {
    if slots == [] then 0
    else (if slots[0].id == id then 1 else 0) + Occurrences(slots[1..], id)
  }

  /** The largest id among `slots`, or 0 when none is positive. */
  function Peak(slots: seq<Slot>): int
  {
    if slots == [] then 0
    else
      Max(Peak(slots[1..]), slots[0].id)
  }

  /** The larger of a and b. */
  function Max(a: int, b: int): int
  {
    if a < b then b else a
  }

  /** Applying slots adds each slot to exactly the row its id reaches: every row's count
      grows by the number of slots landing on it and each sum by their total; the
      largest id becomes the larger of the old one and the slots' peak. */
  lemma {:induction false} ApplySlotsTally(table: seq<NodeSum>, maxId: int, slots: seq<Slot>)
    requires 0 <= maxId && ApplySlots(table, maxId, slots).Ok?
    ensures var acc := ApplySlots(table, maxId, slots).value;
      acc.maxId == Max(maxId, Peak(slots)) &&
      forall r :: 0 <= r < |table| ==>
        acc.table[r].count == table[r].count + Count(slots, |table|, r) &&
        forall j :: 0 <= j < 6 ==> acc.table[r].sums[j] == table[r].sums[j] + Total(slots, |table|, r, j)
    decreases |slots|
  {
    if slots != [] {
      var s := slots[0];
      var m := Max(maxId, s.id);
      var i := RowIndex(s.id, |table|).value;
      var t' := table[i := Added(table[i], s.stress)];
      assert ApplySlots(table, maxId, slots) == ApplySlots(t', m, slots[1..]);
      ApplySlotsTally(t', m, slots[1..]);
    }
  }

  /** An application that fails stops at the first slot whose id reaches no row. */
  lemma {:induction false} ApplySlotsFailure(table: seq<NodeSum>, maxId: int, slots: seq<Slot>)
    requires ApplySlots(table, maxId, slots).Err?
    ensures exists k :: (0 <= k < |slots| && RowIndex(slots[k].id, |table|).None? &&
      ApplySlots(table, maxId, slots).error == IndexError(slots[k].id) &&
      forall k' :: 0 <= k' < k ==> RowIndex(slots[k'].id, |table|).Some?)
    decreases |slots|
  {
    var s := slots[0];
    var m := Max(maxId, s.id);
    if RowIndex(s.id, |table|).Some? {
      var i := RowIndex(s.id, |table|).value;
      var t' := table[i := Added(table[i], s.stress)];
      ApplySlotsFailure(t', m, slots[1..]);
      var k :| 0 <= k < |slots[1..]| && RowIndex(slots[1..][k].id, |t'|).None? &&
        ApplySlots(t', m, slots[1..]).error == IndexError(slots[1..][k].id) &&
        forall k' :: 0 <= k' < k ==> RowIndex(slots[1..][k'].id, |t'|).Some?;
      assert RowIndex(slots[k + 1].id, |table|).None?;
      assert forall k' :: 0 <= k' < k + 1 ==> RowIndex(slots[k'].id, |table|).Some? by {
        forall k' | 0 <= k' < k + 1 ensures RowIndex(slots[k'].id, |table|).Some? {
          if k' > 0 { assert slots[k'] == slots[1..][k' - 1]; }
        }
      }
    } else {
      assert RowIndex(slots[0].id, |table|).None?;
    }
  }

  /** When every id is a valid node number 1..len, row id - 1 counts exactly the slots
      carrying that id, so a repeated id is counted once per occurrence. */
  lemma {:induction false} CountIsOccurrences(slots: seq<Slot>, len: nat, id: int)
    requires 1 <= id <= len
    requires forall k :: 0 <= k < |slots| ==> 1 <= slots[k].id <= len
    ensures Count(slots, len, id - 1) == Occurrences(slots, id)
    decreases |slots|
  {
    if slots != [] {
      CountIsOccurrences(slots[1..], len, id);
    }
  }

  /** Peak is the maximum of the ids, floored at 0. */
  lemma {:induction false} PeakIsMaximum(slots: seq<Slot>)
    ensures 0 <= Peak(slots)
    ensures forall k :: 0 <= k < |slots| ==> slots[k].id <= Peak(slots)
    ensures Peak(slots) == 0 || exists k :: 0 <= k < |slots| && slots[k].id == Peak(slots)
    decreases |slots|
  {
    if slots != [] {
      PeakIsMaximum(slots[1..]);
      forall k | 0 <= k < |slots| ensures slots[k].id <= Peak(slots) {
        if k > 0 { assert slots[k] == slots[1..][k - 1]; }
      }
      if Peak(slots) != 0 && Peak(slots) != slots[0].id {
        var k :| 0 <= k < |slots[1..]| && slots[1..][k].id == Peak(slots[1..]);
        assert slots[k + 1].id == Peak(slots);
      }
    }
  }

  /** Counts, totals and peaks of a concatenation combine those of its parts. */
  lemma {:induction false} TallyAppend(a: seq<Slot>, b: seq<Slot>, len: nat, r: nat)
    ensures Count(a + b, len, r) == Count(a, len, r) + Count(b, len, r)
    ensures forall j :: 0 <= j < 6 ==> Total(a + b, len, r, j) == Total(a, len, r, j) + Total(b, len, r, j)
    ensures Peak(a + b) == Max(Peak(a), Peak(b))
    decreases |a|
  {
    if a != [] {
      assert (a + b)[1..] == a[1..] + b;
      TallyAppend(a[1..], b, len, r);
    } else {
      assert a + b == b;
      PeakIsMaximum(b);
    }
  }

  /** A node's averaged tensor: each sum over the count, in megapascals (line 173). */
  function Mean(ns: NodeSum): (m: Tensor)
    requires ns.count > 0
    ensures forall j :: 0 <= j < 6 ==> m[j] * (ns.count as real) * MPa == ns.sums[j]
  {
    seq(6, j requires 0 <= j < 6 => ns.sums[j] / (ns.count as real) / MPa)
  }

  /** The node rows emitted for ids 1..n, and the ZeroDivisionError the loop raises, if any. */
  datatype Averaged = Averaged(rows: seq<Row>, failure: Option<Error>)

  /** The averaging loop (lines 171-173) run over ids 1..n: rows are emitted in ascending id
      for as long as the counts are positive; the first node with count 0 raises
      ZeroDivisionError after the rows before it were written. */
  function Averages(table: seq<NodeSum>, n: nat): (a: Averaged)
    requires n <= |table|
    ensures |a.rows| <= n
    ensures forall i :: 0 <= i < |a.rows| ==> table[i].count > 0 && a.rows[i] == Row(i + 1, Mean(table[i]))
    ensures a.failure.None? ==> |a.rows| == n
    ensures a.failure.Some? ==>
      |a.rows| < n && table[|a.rows|].count == 0 && a.failure == Some(ZeroDivisionError(|a.rows| + 1))
  {
    if n == 0 then Averaged([], None)
    else
      var p := Averages(table, n - 1);
      if p.failure.Some? then p
      else if table[n - 1].count == 0 then Averaged(p.rows, Some(ZeroDivisionError(n)))
      else Averaged(p.rows + [Row(n, Mean(table[n - 1]))], None)
  }

  /** Averaging succeeds exactly when every node 1..n received a contribution. */
  lemma AveragesSucceed(table: seq<NodeSum>, n: nat)
    requires n <= |table|
    ensures Averages(table, n).failure.None? <==> forall i :: 0 <= i < n ==> table[i].count > 0
  {
  }

  /** Once the averaging loop has failed, running it further changes nothing. */
  lemma {:induction false} AveragesFailureSticks(table: seq<NodeSum>, i: nat, n: nat)
    requires i <= n <= |table|
    requires Averages(table, i).failure.Some?
    ensures Averages(table, n) == Averages(table, i)
    decreases n - i
  {
    if i < n {
      AveragesFailureSticks(table, i, n - 1);
    }
  }
}
