/**
 * The extraction pass itself (ste-output.py, lines 120-176): read the header,
 * walk data_size / 189 element records writing one element row each and
 * adding every node slot into the node table, then write one averaged row per
 * node id 1..real_node_no. The two report files are the sequences of rows the
 * extractor appends to.
 */
module Extractor {
  import opened Wrappers
  import opened Bytes
  import opened SteLayout
  import opened NodeTable

  /** The record loop's state: element rows written so far, the node table, real_node_no,
      and the exception that ended the loop, if one did. */
  datatype Scan = Scan(elements: seq<Row>, table: seq<NodeSum>, maxId: int, failure: Option<Error>)

  /** The length of `[[0]*7 for i in range(node_no)]`. */
  function TableSize(h: Header): (n: nat)
    ensures 0 <= h.nodeNo ==> n == h.nodeNo
    ensures h.nodeNo < 0 ==> n == 0
  {
    if h.nodeNo < 0 then 0 else h.nodeNo
  }

  /** What the loop unpacks from record i: its element row, and its node slots. */
  datatype Record = Record(element: Result<Row, Error>, slots: Result<seq<Slot>, Error>)

  /** Record i decoded from the bytes it occupies, which begin at data_start + 4*byte_no*i. */
  function DecodeRecord(data: seq<byte>, f32: F32, h: Header, i: nat): (r: Record)
    ensures r.element == DecodeElement(data, f32, h.dataStart + 4 * h.byteNo * i)
    ensures r.slots == DecodeSlots(data, f32, h.dataStart + 4 * h.byteNo * i, h.meshType)
  {
    var start := RecordStart(h, i);
    Record(DecodeElement(data, f32, start), DecodeSlots(data, f32, start, h.meshType))
  }

  /** Every unpacking failure of the record is struct.error. */
  predicate Unpacked(rec: Record)
  {
    (rec.element.Err? ==> rec.element.error == StructError) &&
    (rec.slots.Err? ==> rec.slots.error == StructError)
  }

  /** Records 0..n-1, decoded. */
  function Records(data: seq<byte>, f32: F32, h: Header, n: nat): (rs: seq<Record>)
    ensures |rs| == n
  {
    seq(n, i requires 0 <= i < n => DecodeRecord(data, f32, h, i))
  }

  /** Entry i of the record list is record i decoded. */
  lemma RecordsAt(data: seq<byte>, f32: F32, h: Header, n: nat, i: nat)
    requires i < n
    ensures Records(data, f32, h, n)[i] == DecodeRecord(data, f32, h, i)
  {
  }

  /** Decoding a record can fail only with struct.error. */
  lemma RecordUnpacked(data: seq<byte>, f32: F32, h: Header, i: nat)
    ensures Unpacked(DecodeRecord(data, f32, h, i))
  {
  }

  /** No record of the list failed with anything but struct.error. */
  lemma RecordsUnpacked(data: seq<byte>, f32: F32, h: Header, n: nat)
    ensures forall i :: 0 <= i < n ==> Unpacked(Records(data, f32, h, n)[i])
  {
    forall i | 0 <= i < n
      ensures Unpacked(Records(data, f32, h, n)[i])
    {
      RecordsAt(data, f32, h, n, i);
      RecordUnpacked(data, f32, h, i);
    }
  }

  /** One pass of the record loop (lines 150-167). The element row is written before the
      node slots are unpacked, so a record whose slots are short still leaves its row. */
  function Step(s: Scan, rec: Record): (r: Scan)
    requires s.failure.None?
    ensures rec.element.Err? ==> r == s.(failure := Some(rec.element.error))
    ensures rec.element.Ok? ==> r.elements == s.elements + [rec.element.value]
    ensures r.failure.None? <==>
      rec.element.Ok? && rec.slots.Ok? && ApplySlots(s.table, s.maxId, rec.slots.value).Ok?
    ensures r.failure.None? ==>
      r.table == ApplySlots(s.table, s.maxId, rec.slots.value).value.table &&
      r.maxId == ApplySlots(s.table, s.maxId, rec.slots.value).value.maxId
    ensures rec.element.Ok? && rec.slots.Ok? && r.failure.Some? ==>
      r.failure == Some(ApplySlots(s.table, s.maxId, rec.slots.value).error)
  {
    match rec.element
    case Err(e) => s.(failure := Some(e))
    case Ok(row) =>
      var written := s.(elements := s.elements + [row]);
      match rec.slots
      case Err(e) => written.(failure := Some(e))
      case Ok(slots) =>
        match ApplySlots(s.table, s.maxId, slots)
        case Err(e) => written.(failure := Some(e))
        case Ok(acc) => written.(table := acc.table, maxId := acc.maxId)
  }

  /** The state after the first n passes of the record loop over a table of len rows. */
  function ScanRecords(len: nat, recs: seq<Record>, n: nat): (s: Scan)
    requires n <= |recs|
    ensures |s.table| == len && 0 <= s.maxId
    ensures |s.elements| <= n
    ensures s.failure.None? ==> |s.elements| == n && s.maxId <= len
  {
    if n == 0 then Scan([], seq(len, _ => Untouched), 0, None)
    else
      var p := ScanRecords(len, recs, n - 1);
      if p.failure.Some? then p else Step(p, recs[n - 1])
  }

  /** The node slots of the first n records, in the order the loop visits them. */
  function AllSlots(recs: seq<Record>, n: nat): seq<Slot>
    requires n <= |recs|
  {
    if n == 0 then []
    else
      AllSlots(recs, n - 1) +
      match recs[n - 1].slots
      case Ok(slots) => slots
      case Err(_) => []
  }

  /** The next record begins byte_no words further on. */
  lemma RecordStartNext(h: Header, i: nat)
    ensures RecordStart(h, i + 1) == RecordStart(h, i) + 4 * h.byteNo
  {
  }

  /** The records the loop visits: data_size / 189 of them. */
  function RecordsOf(data: seq<byte>, f32: F32, h: Header): seq<Record>
  {
    Records(data, f32, h, RecordCount(h))
  }

  /** The record loop run to its end (or to the exception that stops it). */
  function Scanned(data: seq<byte>, f32: F32, h: Header): (s: Scan)
    ensures |s.table| == TableSize(h) && 0 <= s.maxId
    ensures |s.elements| <= RecordCount(h)
    ensures s.failure.None? ==> |s.elements| == RecordCount(h) && s.maxId <= TableSize(h)
  {
    ScanRecords(TableSize(h), RecordsOf(data, f32, h), RecordCount(h))
  }

  /** Pass i of the record loop, if the loop is still running, is one Step on record i. */
  lemma ScanNext(data: seq<byte>, f32: F32, h: Header, i: nat)
    requires i < RecordCount(h)
    requires ScanRecords(TableSize(h), RecordsOf(data, f32, h), i).failure.None?
    ensures ScanRecords(TableSize(h), RecordsOf(data, f32, h), i + 1) ==
      Step(ScanRecords(TableSize(h), RecordsOf(data, f32, h), i), DecodeRecord(data, f32, h, i))
  {
    RecordsAt(data, f32, h, RecordCount(h), i);
  }

  /** Every node slot of the file's records, in visiting order. */
  function SlotsSeen(data: seq<byte>, f32: F32, h: Header): seq<Slot>
  {
    AllSlots(RecordsOf(data, f32, h), RecordCount(h))
  }

  /** What one extraction writes to the element and node reports, and the exception it
      raises, if any. */
  datatype Outcome = Outcome(elements: seq<Row>, nodes: seq<Row>, failure: Option<Error>)

  /** The whole extraction, with the averaging loop running over ids 1..real_node_no. */
  function Run(data: seq<byte>, f32: F32): (o: Outcome)
    ensures ReadHeader(data, f32).Err? ==> o == Outcome([], [], Some(StructError))
    ensures ReadHeader(data, f32).Ok? ==> |o.elements| <= RecordCount(ReadHeader(data, f32).value)
    ensures o.failure.Some? && !o.failure.value.ZeroDivisionError? ==> o.nodes == []
  {
    match ReadHeader(data, f32)
    case Err(e) => Outcome([], [], Some(e))
    case Ok(h) =>
      var s := Scanned(data, f32, h);
      if s.failure.Some? then Outcome(s.elements, [], s.failure)
      else
        var a := Averages(s.table, s.maxId);
        Outcome(s.elements, a.rows, a.failure)
  }

  /** Once the record loop has failed, further passes change nothing. */
  lemma {:induction false} ScanFailureSticks(len: nat, recs: seq<Record>, i: nat, n: nat)
    requires i <= n <= |recs|
    requires ScanRecords(len, recs, i).failure.Some?
    ensures ScanRecords(len, recs, n) == ScanRecords(len, recs, i)
    decreases n - i
  {
    if i < n {
      ScanFailureSticks(len, recs, i, n - 1);
    }
  }

  /** A completed scan wrote one element row per record, in record order. */
  lemma {:induction false} ScanElementRows(len: nat, recs: seq<Record>, n: nat)
    requires n <= |recs|
    requires ScanRecords(len, recs, n).failure.None?
    ensures var s := ScanRecords(len, recs, n);
      |s.elements| == n && forall i :: 0 <= i < n ==> recs[i].element == Ok(s.elements[i])
  {
    if n > 0 {
      assert ScanRecords(len, recs, n - 1).failure.None?;
      ScanElementRows(len, recs, n - 1);
    }
  }

  /** Whether or not the loop raised, the element rows it wrote are the decoded elements
      of records 0, 1, ... in order: a raising pass stops the rows at the record it was on. */
  lemma {:induction false} ScanElementPrefix(len: nat, recs: seq<Record>, n: nat)
    requires n <= |recs|
    ensures var s := ScanRecords(len, recs, n);
      forall i :: 0 <= i < |s.elements| ==> recs[i].element == Ok(s.elements[i])
  {
    if n > 0 {
      ScanElementPrefix(len, recs, n - 1);
    }
  }

  /** A completed scan unpacked the element and the slots of every record. */
  lemma {:induction false} ScanDecoded(len: nat, recs: seq<Record>, n: nat)
    requires n <= |recs|
    requires ScanRecords(len, recs, n).failure.None?
    ensures forall i :: 0 <= i < n ==> recs[i].element.Ok? && recs[i].slots.Ok?
  {
    if n > 0 {
      assert ScanRecords(len, recs, n - 1).failure.None?;
      ScanDecoded(len, recs, n - 1);
    }
  }

  /** After a completed scan every row of the table holds exactly the slots whose id
      reaches it: its count is how many there are and its sums are their totals;
      real_node_no is the largest id seen (0 if none is positive). */
  lemma {:induction false} ScanTally(len: nat, recs: seq<Record>, n: nat)
    requires n <= |recs|
    requires ScanRecords(len, recs, n).failure.None?
    ensures var s := ScanRecords(len, recs, n);
      var all := AllSlots(recs, n);
      s.maxId == Peak(all) &&
      (forall k :: 0 <= k < |all| ==> RowIndex(all[k].id, len).Some?) &&
      forall r :: 0 <= r < len ==>
        s.table[r].count == Count(all, len, r) &&
        forall j :: 0 <= j < 6 ==> s.table[r].sums[j] == Total(all, len, r, j)
  {
    if n == 0 {
      forall r | 0 <= r < len
        ensures ScanRecords(len, recs, 0).table[r] == Untouched
      {
      }
    } else {
      var p := ScanRecords(len, recs, n - 1);
      assert p.failure.None?;
      ScanTally(len, recs, n - 1);
      StepTally(len, p, recs[n - 1], AllSlots(recs, n - 1));
    }
  }

  /** One pass of the record loop keeps the table a tally of the slots seen so far. */
  lemma StepTally(len: nat, p: Scan, rec: Record, before: seq<Slot>)
    requires p.failure.None? && |p.table| == len && 0 <= p.maxId
    requires Step(p, rec).failure.None?
    requires p.maxId == Peak(before)
    requires forall k :: 0 <= k < |before| ==> RowIndex(before[k].id, len).Some?
    requires forall r :: 0 <= r < len ==>
      p.table[r].count == Count(before, len, r) &&
      forall j :: 0 <= j < 6 ==> p.table[r].sums[j] == Total(before, len, r, j)
    ensures rec.slots.Ok?
    ensures var s := Step(p, rec);
      var all := before + rec.slots.value;
      s.maxId == Peak(all) &&
      (forall k :: 0 <= k < |all| ==> RowIndex(all[k].id, len).Some?) &&
      forall r :: 0 <= r < len ==>
        s.table[r].count == Count(all, len, r) &&
        forall j :: 0 <= j < 6 ==> s.table[r].sums[j] == Total(all, len, r, j)
  {
    var slots := rec.slots.value;
    var all := before + slots;
    ApplySlotsTally(p.table, p.maxId, slots);
    forall r | 0 <= r < len
      ensures Count(all, len, r) == Count(before, len, r) + Count(slots, len, r)
      ensures forall j :: 0 <= j < 6 ==> Total(all, len, r, j) == Total(before, len, r, j) + Total(slots, len, r, j)
    {
      TallyAppend(before, slots, len, r);
    }
    TallyAppend(before, slots, len, 0);
    forall k | 0 <= k < |all| ensures RowIndex(all[k].id, len).Some? {
      if k >= |before| { assert all[k] == slots[k - |before|]; }
    }
  }

  /** real_node_no never decreases as the scan goes on. */
  lemma {:induction false} MaxIdNeverDecreases(len: nat, recs: seq<Record>, i: nat, n: nat)
    requires i <= n <= |recs|
    requires ScanRecords(len, recs, n).failure.None?
    ensures ScanRecords(len, recs, i).maxId <= ScanRecords(len, recs, n).maxId
    decreases n - i
  {
    if i < n {
      assert ScanRecords(len, recs, n - 1).failure.None?;
      MaxIdNeverDecreases(len, recs, i, n - 1);
    }
  }

  /** The record loop completes when every record's element and slots unpack and every
      slot id reaches a row of the table. */
  lemma {:induction false} ScanCompletes(len: nat, recs: seq<Record>, n: nat)
    requires n <= |recs|
    requires forall i :: 0 <= i < n ==> recs[i].element.Ok? && recs[i].slots.Ok?
    requires forall k :: 0 <= k < |AllSlots(recs, n)| ==> RowIndex(AllSlots(recs, n)[k].id, len).Some?
    ensures ScanRecords(len, recs, n).failure.None?
  {
    if n > 0 {
      var before := AllSlots(recs, n - 1);
      var slots := recs[n - 1].slots.value;
      assert AllSlots(recs, n) == before + slots;
      forall k | 0 <= k < |before| ensures RowIndex(before[k].id, len).Some? {
        assert AllSlots(recs, n)[k] == before[k];
      }
      ScanCompletes(len, recs, n - 1);
      var p := ScanRecords(len, recs, n - 1);
      forall k | 0 <= k < |slots| ensures RowIndex(slots[k].id, |p.table|).Some? {
        assert AllSlots(recs, n)[|before| + k] == slots[k];
      }
    }
  }

  /** After a completed scan, the averaging loop completes when every node 1..real_node_no
      received a contribution. */
  lemma ScanAveragesComplete(len: nat, recs: seq<Record>, n: nat)
    requires n <= |recs|
    requires ScanRecords(len, recs, n).failure.None?
    requires forall r :: 0 <= r < Peak(AllSlots(recs, n)) ==> Count(AllSlots(recs, n), len, r) > 0
    ensures Averages(ScanRecords(len, recs, n).table, ScanRecords(len, recs, n).maxId).failure.None?
  {
    var s := ScanRecords(len, recs, n);
    ScanTally(len, recs, n);
    AveragesSucceed(s.table, s.maxId);
  }

  /** After a completed scan, the averaging loop writes one row per id 1..real_node_no, each
      the node's totals over its number of contributions in megapascals, unless some of
      those ids received no contribution. */
  lemma {:induction false} ScanAverages(len: nat, recs: seq<Record>, n: nat)
    requires n <= |recs|
    requires ScanRecords(len, recs, n).failure.None?
    requires Averages(ScanRecords(len, recs, n).table, ScanRecords(len, recs, n).maxId).failure.None?
    ensures var s := ScanRecords(len, recs, n);
      var a := Averages(s.table, s.maxId);
      var all := AllSlots(recs, n);
      |a.rows| == Peak(all) <= len &&
      forall i :: 0 <= i < |a.rows| ==>
        a.rows[i].id == i + 1 && Count(all, len, i) > 0 &&
        forall j :: 0 <= j < 6 ==>
          a.rows[i].stress[j] == Total(all, len, i, j) / (Count(all, len, i) as real) / MPa
  {
    var s := ScanRecords(len, recs, n);
    var a := Averages(s.table, s.maxId);
    var all := AllSlots(recs, n);
    ScanTally(len, recs, n);
    forall i, j | 0 <= i < |a.rows| && 0 <= j < 6
      ensures a.rows[i].stress[j] == Total(all, len, i, j) / (Count(all, len, i) as real) / MPa
    {
      var ns := s.table[i];
      assert a.rows[i].stress == Mean(ns);
      assert ns.count == Count(all, len, i) && ns.sums[j] == Total(all, len, i, j);
    }
  }

  /** A successful extraction writes one element row per record, data_size / 189 of them,
      each decoded from the record that begins at data_start + 4*byte_no*i; and one node
      row for each id 1..real_node_no in ascending order, each component being the node's
      total over its number of contributions, in megapascals. */
  lemma RunSucceeded(data: seq<byte>, f32: F32)
    requires Run(data, f32).failure.None?
    ensures ReadHeader(data, f32).Ok?
    ensures var h := ReadHeader(data, f32).value;
      var n := RecordCount(h);
      var all := SlotsSeen(data, f32, h);
      var len := TableSize(h);
      var o := Run(data, f32);
      |o.elements| == n &&
      (forall i :: 0 <= i < n ==> DecodeElement(data, f32, RecordStart(h, i)) == Ok(o.elements[i])) &&
      |o.nodes| == Peak(all) <= len &&
      forall i :: 0 <= i < |o.nodes| ==>
        o.nodes[i].id == i + 1 && Count(all, len, i) > 0 &&
        forall j :: 0 <= j < 6 ==>
          o.nodes[i].stress[j] == Total(all, len, i, j) / (Count(all, len, i) as real) / MPa
  {
    var h := ReadHeader(data, f32).value;
    RunElements(data, f32);
    ScanAverages(TableSize(h), RecordsOf(data, f32, h), RecordCount(h));
  }

  /** On success, the element rows are the decoded elements of the records, in order. */
  lemma RunElements(data: seq<byte>, f32: F32)
    requires Run(data, f32).failure.None? && ReadHeader(data, f32).Ok?
    ensures var h := ReadHeader(data, f32).value;
      |Run(data, f32).elements| == RecordCount(h) &&
      forall i :: 0 <= i < RecordCount(h) ==> DecodeElement(data, f32, RecordStart(h, i)) == Ok(Run(data, f32).elements[i])
  {
    var h := ReadHeader(data, f32).value;
    forall i | 0 <= i < RecordCount(h)
      ensures DecodeElement(data, f32, RecordStart(h, i)) == Ok(Run(data, f32).elements[i])
    {
      RunElement(data, f32, i);
    }
  }

  /** Records whose element and slot reads all succeed are listed as such. */
  lemma RecordsDecode(data: seq<byte>, f32: F32, h: Header)
    requires forall i :: 0 <= i < RecordCount(h) ==>
      DecodeElement(data, f32, RecordStart(h, i)).Ok? && DecodeSlots(data, f32, RecordStart(h, i), h.meshType).Ok?
    ensures forall i :: 0 <= i < RecordCount(h) ==>
      RecordsOf(data, f32, h)[i].element.Ok? && RecordsOf(data, f32, h)[i].slots.Ok?
  {
    forall i | 0 <= i < RecordCount(h)
      ensures RecordsOf(data, f32, h)[i].element.Ok? && RecordsOf(data, f32, h)[i].slots.Ok?
    {
      RecordsAt(data, f32, h, RecordCount(h), i);
    }
  }

  /** The extraction raises nothing when the header reads, every record's element and
      slots unpack, every slot id reaches a row, and every node 1..real_node_no received a
      contribution. RunNeedsAll is the converse. */
  lemma RunCompletes(data: seq<byte>, f32: F32)
    requires ReadHeader(data, f32).Ok?
    requires var h := ReadHeader(data, f32).value;
      forall i :: 0 <= i < RecordCount(h) ==>
        DecodeElement(data, f32, RecordStart(h, i)).Ok? && DecodeSlots(data, f32, RecordStart(h, i), h.meshType).Ok?
    requires var h := ReadHeader(data, f32).value; var all := SlotsSeen(data, f32, h);
      forall k :: 0 <= k < |all| ==> RowIndex(all[k].id, TableSize(h)).Some?
    requires var h := ReadHeader(data, f32).value; var all := SlotsSeen(data, f32, h);
      forall r :: 0 <= r < Peak(all) ==> Count(all, TableSize(h), r) > 0
    ensures Run(data, f32).failure.None?
  {
    var h := ReadHeader(data, f32).value;
    var recs := RecordsOf(data, f32, h);
    var n := RecordCount(h);
    RecordsDecode(data, f32, h);
    var all := SlotsSeen(data, f32, h);
    assert all == AllSlots(recs, n);
    assert forall k :: 0 <= k < |all| ==> RowIndex(all[k].id, TableSize(h)).Some?;
    assert forall r :: 0 <= r < Peak(all) ==> Count(all, TableSize(h), r) > 0;
    ScanCompletes(TableSize(h), recs, n);
    ScanAveragesComplete(TableSize(h), recs, n);
  }

  /** The converse of RunCompletes: an extraction that raises nothing read its header,
      unpacked every record's element and slots, found a row for every slot id, and
      received a contribution for every node 1..real_node_no. */
  lemma RunNeedsAll(data: seq<byte>, f32: F32)
    requires Run(data, f32).failure.None?
    ensures ReadHeader(data, f32).Ok?
    ensures var h := ReadHeader(data, f32).value;
      forall i :: 0 <= i < RecordCount(h) ==>
        DecodeElement(data, f32, RecordStart(h, i)).Ok? && DecodeSlots(data, f32, RecordStart(h, i), h.meshType).Ok?
    ensures var h := ReadHeader(data, f32).value; var all := SlotsSeen(data, f32, h);
      forall k :: 0 <= k < |all| ==> RowIndex(all[k].id, TableSize(h)).Some?
    ensures var h := ReadHeader(data, f32).value; var all := SlotsSeen(data, f32, h);
      forall r :: 0 <= r < Peak(all) ==> Count(all, TableSize(h), r) > 0
  {
    var h := ReadHeader(data, f32).value;
    var recs := RecordsOf(data, f32, h);
    var n := RecordCount(h);
    var s := Scanned(data, f32, h);
    assert s.failure.None?;
    ScanDecoded(TableSize(h), recs, n);
    forall i | 0 <= i < n
      ensures DecodeElement(data, f32, RecordStart(h, i)).Ok? && DecodeSlots(data, f32, RecordStart(h, i), h.meshType).Ok?
    {
      RecordsAt(data, f32, h, n, i);
    }
    ScanTally(TableSize(h), recs, n);
    AveragesSucceed(s.table, s.maxId);
  }

  /** Whether or not the extraction raised, once the header reads, element row i is the
      decoded element of the record at data_start + 4*byte_no*i. */
  lemma RunElementPrefix(data: seq<byte>, f32: F32)
    requires ReadHeader(data, f32).Ok?
    ensures var h := ReadHeader(data, f32).value; var o := Run(data, f32);
      forall i :: 0 <= i < |o.elements| ==> DecodeElement(data, f32, RecordStart(h, i)) == Ok(o.elements[i])
  {
    var h := ReadHeader(data, f32).value;
    var n := RecordCount(h);
    var s := Scanned(data, f32, h);
    assert Run(data, f32).elements == s.elements;
    ScanElementPrefix(TableSize(h), RecordsOf(data, f32, h), n);
    forall i | 0 <= i < |s.elements|
      ensures DecodeElement(data, f32, RecordStart(h, i)) == Ok(s.elements[i])
    {
      RecordsAt(data, f32, h, n, i);
    }
  }

  /** Element row i of a successful extraction comes from the record at
      data_start + 4*byte_no*i: its id is word 0 truncated toward zero, and its six
      components are the words at bytes 56..80 of the record in megapascals. */
  lemma RunElementRow(data: seq<byte>, f32: F32, i: nat, st: int)
    requires Run(data, f32).failure.None? && ReadHeader(data, f32).Ok?
    requires i < RecordCount(ReadHeader(data, f32).value)
    requires var h := ReadHeader(data, f32).value; st == h.dataStart + 4 * h.byteNo * i
    requires 0 <= st
    ensures i < |Run(data, f32).elements| && st + 80 <= |data|
    ensures var row := Run(data, f32).elements[i];
      row.id == Trunc(f32(data[st..st + 4])) &&
      forall t :: 0 <= t < 6 ==> row.stress[t] * MPa == f32(data[st + 56 + 4 * t..st + 60 + 4 * t])
  {
    var h := ReadHeader(data, f32).value;
    RunElement(data, f32, i);
    ElementFields(data, f32, st);
  }

  /** Element row i of a completed extraction is record i's element, decoded. */
  lemma RunElement(data: seq<byte>, f32: F32, i: nat)
    requires Run(data, f32).failure.None? && ReadHeader(data, f32).Ok?
    requires i < RecordCount(ReadHeader(data, f32).value)
    ensures i < |Run(data, f32).elements|
    ensures DecodeElement(data, f32, RecordStart(ReadHeader(data, f32).value, i)) == Ok(Run(data, f32).elements[i])
  {
    var h := ReadHeader(data, f32).value;
    var recs := RecordsOf(data, f32, h);
    ScanElementRows(TableSize(h), recs, RecordCount(h));
    RecordsAt(data, f32, h, RecordCount(h), i);
  }

  /** The scan stops with IndexError only for an id that reaches no row of the table:
      above node_no, or so far below 1 that even Python's negative indexing misses. */
  lemma {:induction false} ScanIndexError(len: nat, recs: seq<Record>, n: nat)
    requires n <= |recs|
    requires forall i :: 0 <= i < |recs| ==> Unpacked(recs[i])
    requires ScanRecords(len, recs, n).failure.Some?
    requires ScanRecords(len, recs, n).failure.value.IndexError?
    ensures var id := ScanRecords(len, recs, n).failure.value.id;
      len < id || id < 1 - len
  {
    var p := ScanRecords(len, recs, n - 1);
    if p.failure.Some? {
      ScanIndexError(len, recs, n - 1);
    } else {
      var rec := recs[n - 1];
      assert Unpacked(rec);
      ApplySlotsFailure(p.table, p.maxId, rec.slots.value);
    }
  }

  /** An extraction that raises IndexError met a node id above node_no, or one too far
      below 1 for Python's negative indexing to reach a row. */
  lemma RunIndexError(data: seq<byte>, f32: F32)
    requires Run(data, f32).failure.Some? && Run(data, f32).failure.value.IndexError?
    ensures ReadHeader(data, f32).Ok?
    ensures var h := ReadHeader(data, f32).value;
      var id := Run(data, f32).failure.value.id;
      TableSize(h) < id || id < 1 - TableSize(h)
  {
    var h := ReadHeader(data, f32).value;
    RecordsUnpacked(data, f32, h, RecordCount(h));
    ScanIndexError(TableSize(h), RecordsOf(data, f32, h), RecordCount(h));
  }

  /** The element count the header declares at byte 12 plays no part in the scan. */
  lemma DeclaredCountIgnored(data: seq<byte>, f32: F32, h: Header, declared: int)
    ensures Scanned(data, f32, h.(elemNo := declared)) == Scanned(data, f32, h)
    ensures SlotsSeen(data, f32, h.(elemNo := declared)) == SlotsSeen(data, f32, h)
  {
    var h' := h.(elemNo := declared);
    var n := RecordCount(h);
    forall i: nat | i < n ensures RecordsOf(data, f32, h')[i] == RecordsOf(data, f32, h)[i] {
      RecordsAt(data, f32, h, n, i);
      RecordsAt(data, f32, h', n, i);
      RecordIgnoresCount(data, f32, h, declared, i);
    }
    assert RecordsOf(data, f32, h') == RecordsOf(data, f32, h);
  }

  /** Record i is decoded the same whatever element count the header declares. */
  lemma RecordIgnoresCount(data: seq<byte>, f32: F32, h: Header, declared: int, i: nat)
    ensures DecodeRecord(data, f32, h.(elemNo := declared), i) == DecodeRecord(data, f32, h, i)
  {
    assert RecordStart(h.(elemNo := declared), i) == RecordStart(h, i);
  }

  /** A node n between 1 and real_node_no whose row no slot reached (no slot with id n, nor
      with id n - node_no, which Python's negative indexing sends to the same row) makes the
      averaging loop raise ZeroDivisionError at or before n, with only the rows before it
      written. */
  lemma RunFailsOnUntouchedNode(data: seq<byte>, f32: F32, node: int)
    requires ReadHeader(data, f32).Ok?
    requires Scanned(data, f32, ReadHeader(data, f32).value).failure.None?
    requires var h := ReadHeader(data, f32).value;
      1 <= node <= Peak(SlotsSeen(data, f32, h)) && Count(SlotsSeen(data, f32, h), TableSize(h), node - 1) == 0
    ensures Run(data, f32).failure.Some? && Run(data, f32).failure.value.ZeroDivisionError?
    ensures Run(data, f32).failure.value.node <= node
    ensures |Run(data, f32).nodes| == Run(data, f32).failure.value.node - 1
  {
    var h := ReadHeader(data, f32).value;
    ScanTally(TableSize(h), RecordsOf(data, f32, h), RecordCount(h));
  }

  /** A Python number as real_node_no holds it: the float it starts as (line 145), or the
      int a slot's id replaces it with (line 159). */
  datatype PyNum = PyFloat(x: real) | PyInt(i: int)

  function PyValue(n: PyNum): (v: real)
    ensures n.PyFloat? ==> v == n.x
    ensures n.PyInt? ==> v == n.i as real
  {
    match n
    case PyFloat(x) => x
    case PyInt(i) => i as real
  }

  /** real_node_no after the test at lines 158-159 has been applied to every slot in turn:
      it is replaced by the slot's int id whenever it is numerically below that id. */
  function RaiseAsWritten(n: PyNum, slots: seq<Slot>): (r: PyNum)
    ensures r == n || r.PyInt?
    ensures PyValue(n) <= PyValue(r)
    ensures forall k :: 0 <= k < |slots| ==> slots[k].id as real <= PyValue(r)
    decreases |slots|
  {
    if slots == [] then n
    else
      var next := if PyValue(n) < slots[0].id as real then PyInt(slots[0].id) else n;
      RaiseAsWritten(next, slots[1..])
  }

  /** Starting from 0.0 or from a non-negative int, real_node_no is left as it was when no
      slot's id exceeds it, and otherwise ends as the int holding the largest id. */
  lemma {:induction false} RaiseIsPeak(n: PyNum, slots: seq<Slot>)
    requires n == PyFloat(0.0) || (n.PyInt? && 0 <= n.i)
    ensures Peak(slots) as real <= PyValue(n) ==> RaiseAsWritten(n, slots) == n
    ensures PyValue(n) < Peak(slots) as real ==> RaiseAsWritten(n, slots) == PyInt(Peak(slots))
    decreases |slots|
  {
    if slots != [] {
      var next := if PyValue(n) < slots[0].id as real then PyInt(slots[0].id) else n;
      RaiseIsPeak(next, slots[1..]);
    }
  }

  /** `range(n)`: an int gives the ids below it (none for a negative one); Python 2.7
      raises TypeError for a float. */
  function PyRange(n: PyNum): (r: Result<nat, Error>)
    ensures r.Err? <==> n.PyFloat?
    ensures r.Err? ==> r.error == TypeError
    ensures n.PyInt? && 0 <= n.i ==> r == Ok(n.i)
    ensures n.PyInt? && n.i < 0 ==> r == Ok(0)
  {
    match n
    case PyFloat(_) => Err(TypeError)
    case PyInt(i) => if i < 0 then Ok(0) else Ok(i)
  }

  /** The extraction as written: after a completed scan, the averaging loop runs over
      `range(real_node_no)` with real_node_no carrying its Python type. It writes the same
      element rows as `Run`, and differs from `Run` only by raising TypeError where `Run`
      completes without node rows. */
  function RunAsWritten(data: seq<byte>, f32: F32): (o: Outcome)
    ensures o.elements == Run(data, f32).elements
    ensures o != Run(data, f32) ==>
      o.failure == Some(TypeError) && Run(data, f32).failure.None? && Run(data, f32).nodes == []
  {
    match ReadHeader(data, f32)
    case Err(e) => Outcome([], [], Some(e))
    case Ok(h) =>
      var s := Scanned(data, f32, h);
      if s.failure.Some? then Outcome(s.elements, [], s.failure)
      else
        ScanTally(TableSize(h), RecordsOf(data, f32, h), RecordCount(h));
        RaiseIsPeak(PyFloat(0.0), SlotsSeen(data, f32, h));
        match PyRange(RaiseAsWritten(PyFloat(0.0), SlotsSeen(data, f32, h)))
        case Err(e) => Outcome(s.elements, [], Some(e))
        case Ok(bound) =>
          var a := Averages(s.table, bound);
          Outcome(s.elements, a.rows, a.failure)
  }

  /** As written, the extraction differs from the corrected one exactly when the scan
      completes without seeing a positive node id: it then raises TypeError where the
      corrected one writes no node rows and finishes. */
  lemma AsWrittenDiffers(data: seq<byte>, f32: F32)
    ensures RunAsWritten(data, f32) != Run(data, f32) <==>
      ReadHeader(data, f32).Ok? &&
      Scanned(data, f32, ReadHeader(data, f32).value).failure.None? &&
      Peak(SlotsSeen(data, f32, ReadHeader(data, f32).value)) == 0
    ensures RunAsWritten(data, f32) != Run(data, f32) ==>
      RunAsWritten(data, f32).failure == Some(TypeError) &&
      Run(data, f32).failure.None? && Run(data, f32).nodes == []
  {
    if ReadHeader(data, f32).Ok? {
      var h := ReadHeader(data, f32).value;
      if Scanned(data, f32, h).failure.None? {
        ScanTally(TableSize(h), RecordsOf(data, f32, h), RecordCount(h));
        RaiseIsPeak(PyFloat(0.0), SlotsSeen(data, f32, h));
      }
    }
  }

  /** A file whose header reads but whose payload holds no whole record: as written the
      extraction raises TypeError; corrected, it writes two empty reports. */
  lemma NoRecordsAsWritten(data: seq<byte>, f32: F32)
    requires ReadHeader(data, f32).Ok? && ReadHeader(data, f32).value.dataSize < WordsPerElement
    ensures RunAsWritten(data, f32).failure == Some(TypeError)
    ensures Run(data, f32) == Outcome([], [], None)
  {
    var h := ReadHeader(data, f32).value;
    assert RecordCount(h) == 0;
    var s := Scanned(data, f32, h);
    assert s == Scan([], seq(TableSize(h), _ => Untouched), 0, None);
    assert SlotsSeen(data, f32, h) == [];
    assert RaiseAsWritten(PyFloat(0.0), []) == PyFloat(0.0);
    assert Averages(s.table, 0) == Averaged([], None);
  }

  /** A 100-byte file of zeros is such a file: its payload size is 0. */
  lemma EmptyPayloadAsWritten(f32: F32)
    ensures var data := seq(100, _ => 0 as byte);
      RunAsWritten(data, f32).failure == Some(TypeError) &&
      Run(data, f32) == Outcome([], [], None)
  {
    var data := seq(100, _ => 0 as byte);
    assert data[12..16] == data[36..40] == data[28..32] == data[80..84] == [0, 0, 0, 0];
    assert ReadHeader(data, f32).Ok? && ReadHeader(data, f32).value.dataSize == 0;
    NoRecordsAsWritten(data, f32);
  }

  /** Within one record, two slots naming the same node both count: the row's count
      grows by two and each sum by both stresses; the other rows are untouched. */
  lemma RepeatedIdCountedTwice(table: seq<NodeSum>, maxId: nat, a: Slot, b: Slot)
    requires a.id == b.id && 1 <= a.id <= |table|
    ensures ApplySlots(table, maxId, [a, b]).Ok?
    ensures var t := ApplySlots(table, maxId, [a, b]).value.table;
      var r := a.id - 1;
      t[r].count == table[r].count + 2 &&
      (forall j :: 0 <= j < 6 ==> t[r].sums[j] == table[r].sums[j] + a.stress[j] + b.stress[j]) &&
      forall q :: 0 <= q < |table| && q != r ==> t[q] == table[q]
  {
    var r := a.id - 1;
    var t1 := table[r := Added(table[r], a.stress)];
    assert ApplySlots(table, maxId, [a, b]) == ApplySlots(t1, Max(maxId, a.id), [b]);
    assert [a, b][1..] == [b];
  }

  /** The averaging does not skip untouched nodes: if only node 3 of a three-node table
      received a contribution, the loop raises ZeroDivisionError at node 1, before writing
      anything. */
  lemma UntouchedNodeRaises()
    ensures var slot := Slot(3, [6000000.0, 0.0, 0.0, 0.0, 0.0, 0.0]);
      var acc := ApplySlots([Untouched, Untouched, Untouched], 0, [slot]);
      acc.Ok? && acc.value.maxId == 3 &&
      Averages(acc.value.table, 3) == Averaged([], Some(ZeroDivisionError(1)))
  {
    var slot := Slot(3, [6000000.0, 0.0, 0.0, 0.0, 0.0, 0.0]);
    var table := [Untouched, Untouched, Untouched];
    var t := table[2 := Added(Untouched, slot.stress)];
    assert RowIndex(3, 3) == Some(2);
    assert [slot][1..] == [];
    assert ApplySlots(table, 0, [slot]) == ApplySlots(t, 3, []);
    assert Averages(t, 1) == Averaged([], Some(ZeroDivisionError(1)));
    AveragesFailureSticks(t, 1, 3);
  }

  /** Two elements contributing 2e6 Pa and 4e6 Pa of SX to node 1 average to 3 MPa. */
  lemma TwoContributionsAverage()
    ensures var a := Slot(1, [2000000.0, 0.0, 0.0, 0.0, 0.0, 0.0]);
      var b := Slot(1, [4000000.0, 0.0, 0.0, 0.0, 0.0, 0.0]);
      var acc := ApplySlots([Untouched], 0, [a, b]);
      acc.Ok? && acc.value.maxId == 1 &&
      var avg := Averages(acc.value.table, 1);
      avg.failure.None? && |avg.rows| == 1 && avg.rows[0].id == 1 && avg.rows[0].stress[0] == 3.0
  {
    var a := Slot(1, [2000000.0, 0.0, 0.0, 0.0, 0.0, 0.0]);
    var b := Slot(1, [4000000.0, 0.0, 0.0, 0.0, 0.0, 0.0]);
    RepeatedIdCountedTwice([Untouched], 0, a, b);
    var t := ApplySlots([Untouched], 0, [a, b]).value.table;
    assert t[0].count == 2 && t[0].sums[0] == 6000000.0;
  }

  /** Adds one slot's stress into row r of the table in place (lines 161-165). */
  method AddToRow(table: array<NodeSum>, r: nat, stress: Tensor)
    requires r < table.Length
    modifies table
    ensures table[..] == old(table[..])[r := Added(old(table[r]), stress)]
  {
    var nod := table[r];
    var count := nod.count + 1;
    var sums: seq<real> := nod.sums;
    for j := 0 to 6
      invariant |sums| == 6
      invariant forall t :: 0 <= t < j ==> sums[t] == nod.sums[t] + stress[t]
      invariant forall t :: j <= t < 6 ==> sums[t] == nod.sums[t]
    {
      sums := sums[j := sums[j] + stress[j]];
    }
    assert sums == Added(nod, stress).sums;
    table[r] := NodeSum(count, sums);
  }

  /** The loop over one record's node slots (lines 156-165), updating the table in place
      and returning the new real_node_no, or the IndexError it stopped at. */
  method AccumulateSlots(table: array<NodeSum>, realNodeNo: int, slots: seq<Slot>)
    returns (maxId: int, failure: Option<Error>)
    modifies table
    ensures var r := ApplySlots(old(table[..]), realNodeNo, slots);
      (failure.None? <==> r.Ok?) &&
      (r.Ok? ==> table[..] == r.value.table && maxId == r.value.maxId) &&
      (r.Err? ==> failure == Some(r.error))
  {
    maxId := realNodeNo;
    for k := 0 to |slots|
      invariant ApplySlots(old(table[..]), realNodeNo, slots) == ApplySlots(table[..], maxId, slots[k..])
    {
      assert slots[k..][0] == slots[k] && slots[k..][1..] == slots[k + 1..];
      var intVal := slots[k].id;
      if maxId < intVal {
        maxId := intVal;
      }
      var row := RowIndex(intVal, table.Length);
      if row.None? {
        return maxId, Some(IndexError(intVal));
      }
      AddToRow(table, row.value, slots[k].stress);
    }
    assert slots[|slots|..] == [];
    failure := None;
  }

  /** STE_StressExtractor: the two report sinks are the rows written to them so far. */
  class StressExtractor {
    var elementsOut: seq<Row>
    var nodesOut: seq<Row>

    constructor ()
      ensures elementsOut == [] && nodesOut == []
    {
      elementsOut := [];
      nodesOut := [];
    }

    /** _save_element: one more line in the element report. */
    method SaveElement(row: Row)
      modifies this
      ensures elementsOut == old(elementsOut) + [row] && nodesOut == old(nodesOut)
    {
      elementsOut := elementsOut + [row];
    }

    /** _save_node: one more line in the node report. */
    method SaveNode(row: Row)
      modifies this
      ensures nodesOut == old(nodesOut) + [row] && elementsOut == old(elementsOut)
    {
      nodesOut := nodesOut + [row];
    }

    /** The averaging loop (lines 171-173) over ids 1..realNodeNo. */
    method EmitAverages(table: array<NodeSum>, realNodeNo: nat) returns (failure: Option<Error>)
      requires realNodeNo <= table.Length
      modifies this
      ensures var a := Averages(table[..], realNodeNo);
        nodesOut == old(nodesOut) + a.rows && failure == a.failure
      ensures elementsOut == old(elementsOut)
    {
      ghost var t := table[..];
      for i := 0 to realNodeNo
        invariant Averages(t, i).failure.None?
        invariant nodesOut == old(nodesOut) + Averages(t, i).rows
        invariant elementsOut == old(elementsOut)
      {
        var nod := table[i];
        assert nod == t[i];
        if nod.count == 0 {
          AveragesFailureSticks(t, i + 1, realNodeNo);
          return Some(ZeroDivisionError(i + 1));
        }
        SaveNode(Row(i + 1, Mean(nod)));
      }
      return None;
    }

    /** One pass of the record loop (lines 150-167) for record i, which begins at `start`:
        write its element row, then add its node slots into the table; `s` is the loop
        state before. */
    method ProcessRecord(data: seq<byte>, f32: F32, h: Header, i: nat, start: int,
                         table: array<NodeSum>, realNodeNo: int, ghost s: Scan, ghost base: seq<Row>)
      returns (maxId: int, failure: Option<Error>)
      requires start == RecordStart(h, i)
      requires s.failure.None? && table[..] == s.table && realNodeNo == s.maxId
      requires elementsOut == base + s.elements
      modifies this, table
      ensures var s' := Step(s, DecodeRecord(data, f32, h, i));
        elementsOut == base + s'.elements && nodesOut == old(nodesOut) && failure == s'.failure &&
        (failure.None? ==> table[..] == s'.table && maxId == s'.maxId)
    {
      maxId := realNodeNo;
      var element := DecodeElement(data, f32, start);
      if element.Err? {
        return maxId, Some(element.error);
      }
      SaveElement(element.value);
      var slots := DecodeSlots(data, f32, start, h.meshType);
      if slots.Err? {
        return maxId, Some(slots.error);
      }
      maxId, failure := AccumulateSlots(table, realNodeNo, slots.value);
    }

    /** Pass i of the record loop: the loop state moves from that of i passes to that
        of i + 1. */
    method RecordPass(data: seq<byte>, f32: F32, h: Header, i: nat, start: int,
                      table: array<NodeSum>, realNodeNo: int, ghost base: seq<Row>)
      returns (maxId: int, failure: Option<Error>)
      requires i < RecordCount(h) && start == RecordStart(h, i)
      requires var s := ScanRecords(TableSize(h), RecordsOf(data, f32, h), i);
        s.failure.None? && table[..] == s.table && realNodeNo == s.maxId && elementsOut == base + s.elements
      modifies this, table
      ensures var s' := ScanRecords(TableSize(h), RecordsOf(data, f32, h), i + 1);
        elementsOut == base + s'.elements && nodesOut == old(nodesOut) && failure == s'.failure &&
        (failure.None? ==> table[..] == s'.table && maxId == s'.maxId)
      ensures failure.Some? ==> Scanned(data, f32, h) == ScanRecords(TableSize(h), RecordsOf(data, f32, h), i + 1)
    {
      ScanNext(data, f32, h, i);
      ghost var s := ScanRecords(TableSize(h), RecordsOf(data, f32, h), i);
      maxId, failure := ProcessRecord(data, f32, h, i, start, table, realNodeNo, s, base);
      if failure.Some? {
        ScanFailureSticks(TableSize(h), RecordsOf(data, f32, h), i + 1, RecordCount(h));
      }
    }

    /** The record loop (lines 142-167) over data_size / 189 records: the element rows are
        appended to the element report, the node table is allocated with node_no rows
        and updated in place, and real_node_no is returned with it. */
    method ScanFile(data: seq<byte>, f32: F32, h: Header)
      returns (outputNode: array<NodeSum>, realNodeNo: int, failure: Option<Error>)
      modifies this
      ensures var s := Scanned(data, f32, h);
        elementsOut == old(elementsOut) + s.elements && nodesOut == old(nodesOut) &&
        failure == s.failure &&
        fresh(outputNode) && (failure.None? ==> outputNode[..] == s.table && realNodeNo == s.maxId)
    {
      outputNode := new NodeSum[TableSize(h)](_ => Untouched);
      assert outputNode[..] == ScanRecords(TableSize(h), RecordsOf(data, f32, h), 0).table;
      realNodeNo, failure := RecordLoop(data, f32, h, outputNode);
    }

    /** The `for i in xrange(0, elem_no)` loop itself, over a table that starts untouched:
        it leaves the reports, the table and real_node_no as the completed scan has them,
        or stops at the exception the scan stops at. */
    method RecordLoop(data: seq<byte>, f32: F32, h: Header, outputNode: array<NodeSum>)
      returns (realNodeNo: int, failure: Option<Error>)
      requires outputNode[..] == ScanRecords(TableSize(h), RecordsOf(data, f32, h), 0).table
      modifies this, outputNode
      ensures var s := ScanRecords(TableSize(h), RecordsOf(data, f32, h), RecordCount(h));
        elementsOut == old(elementsOut) + s.elements && nodesOut == old(nodesOut) &&
        failure == s.failure && (failure.None? ==> outputNode[..] == s.table && realNodeNo == s.maxId)
    {
      var elemNo := RecordCount(h);
      ghost var recs := RecordsOf(data, f32, h);
      ghost var len := TableSize(h);
      var start := h.dataStart;
      realNodeNo := 0;
      for i := 0 to elemNo
        invariant start == RecordStart(h, i)
        invariant ScanRecords(len, recs, i).failure.None?
        invariant outputNode[..] == ScanRecords(len, recs, i).table
        invariant realNodeNo == ScanRecords(len, recs, i).maxId
        invariant elementsOut == old(elementsOut) + ScanRecords(len, recs, i).elements
        invariant nodesOut == old(nodesOut)
      {
        var f;
        realNodeNo, f := RecordPass(data, f32, h, i, start, outputNode, realNodeNo, old(elementsOut));
        if f.Some? {
          return realNodeNo, f;
        }
        RecordStartNext(h, i);
        start := start + 4 * h.byteNo;
      }
      failure := None;
    }

    /** _extract_stress on the whole file `data`, with the averaging loop of line 171 run
        over an int bound: appends the element and node rows `Run` writes and returns the
        exception `Run` raises, if any. The code as written, whose bound can still be the
        float 0.0, is `RunAsWritten`. */
    method ExtractStress(data: seq<byte>, f32: F32) returns (failure: Option<Error>)
      modifies this
      ensures var o := Run(data, f32);
        elementsOut == old(elementsOut) + o.elements &&
        nodesOut == old(nodesOut) + o.nodes &&
        failure == o.failure
    {
      var header := ReadHeader(data, f32);
      if header.Err? {
        return Some(header.error);
      }
      var outputNode, realNodeNo, f := ScanFile(data, f32, header.value);
      if f.Some? {
        return f;
      }
      failure := EmitAverages(outputNode, realNodeNo);
    }
  }
}
