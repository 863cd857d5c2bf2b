/**
 * The STE file layout as the extractor reads it: four header integers at
 * fixed offsets, two layout words just after the start of the record area,
 * and fixed-size element records holding an element tensor and a run of
 * node slots. Float words are decoded by an abstract decoder `f32`.
 */
module SteLayout {
  import opened Wrappers
  import opened Bytes

  /** The value of a 4-byte single-precision word (its IEEE-754 meaning is not modelled). */
  type F32 = seq<byte> -> real

  // Header offsets (bytes from the start of the file).
  const ElemNoAt: int := 12
  const DataSizeAt: int := 28
  const NodeNoAt: int := 36
  const DataStartAt: int := 80
  // Layout words, relative to data_start.
  const ByteNoAt: int := 4
  const MeshTypeAt: int := 12
  // Record layout, relative to the start of a record.
  const ElementStressAt: int := 56
  const FirstSlotAt: int := 116
  /** The payload size is divided by this to get the number of records. */
  const WordsPerElement: int := 189
  /** Pascals per megapascal. */
  const MPa: real := 1000000.0

  /** The exceptions the extraction can raise. */
  datatype Error =
    | StructError             // struct.unpack given a short slice or a bad format
    | IndexError(id: int)     // output_node[id - 1] out of range
    | ZeroDivisionError(node: int)  // averaging a node no slot contributed to
    | TypeError               // range() given a float

  type Tensor = s: seq<real> | |s| == 6 witness [0.0, 0.0, 0.0, 0.0, 0.0, 0.0]

  /** One line of a report: an element or node id and its six stress components. */
  datatype Row = Row(id: int, stress: Tensor)

  /** One node slot of an element record: a node id and that node's raw stress (Pa). */
  datatype Slot = Slot(id: int, stress: Tensor)

  datatype Header = Header(elemNo: int, nodeNo: int, dataSize: int, dataStart: int,
                           byteNo: int, meshType: int)

  /** struct.unpack('i', data[off:off+4])[0] */
  function UnpackInt(data: seq<byte>, off: int): (r: Result<int, Error>)
    ensures r.Ok? <==> |PySlice(data, off, off + 4)| == 4
    ensures 0 <= off ==> (r.Ok? <==> off + 4 <= |data|)
    ensures 0 <= off && r.Ok? ==> r.value == Int32LE(data[off..off + 4])
    ensures r.Err? ==> r.error == StructError
  {
    var w := PySlice(data, off, off + 4);
    if |w| == 4 then Ok(Int32LE(w)) else Err(StructError)
  }

  /** The words of a buffer whose length is a multiple of four, in order. */
  function Words(w: seq<byte>, f32: F32): (r: seq<real>)
    requires |w| % 4 == 0
    ensures |r| == |w| / 4
    ensures forall t :: 0 <= t < |r| ==> r[t] == f32(w[4 * t..4 * t + 4])
    ensures |w| == 4 ==> r == [f32(w)]
  {
    assert |w| == 4 ==> w[0..4] == w;
    seq(|w| / 4, t requires 0 <= t < |w| / 4 => f32(w[4 * t..4 * t + 4]))
  }

  /** struct.unpack(str(n) + 'f', data[off:off+4*n]): fails unless the slice holds exactly n words. */
  function UnpackFloats(data: seq<byte>, off: int, n: int, f32: F32): (r: Result<seq<real>, Error>)
    ensures r.Ok? <==> 0 <= n && |PySlice(data, off, off + 4 * n)| == 4 * n
    ensures r.Ok? ==> |r.value| == n
    ensures 0 <= off ==> (r.Ok? <==> n == 0 || (0 < n && off + 4 * n <= |data|))
    ensures 0 <= off && r.Ok? ==>
      forall t :: 0 <= t < n ==> r.value[t] == f32(data[off + 4 * t..off + 4 * t + 4])
    ensures off < 0 && 0 < n ==> (r.Ok? <==> off + 4 * n < 0 <= off + |data|)
    ensures off < 0 && r.Ok? ==>
      forall t :: 0 <= t < n ==> r.value[t] == f32(data[off + |data| + 4 * t..off + |data| + 4 * t + 4])
    ensures r.Err? ==> r.error == StructError
  {
    if n < 0 then Err(StructError)
    else
      var w := PySlice(data, off, off + 4 * n);
      if |w| != 4 * n then Err(StructError)
      else
        var r := Words(w, f32);
        assert 0 <= off ==> forall t :: 0 <= t < n ==> w[4 * t..4 * t + 4] == data[off + 4 * t..off + 4 * t + 4] by {
          if 0 <= off && 0 < n { assert w == data[off..off + 4 * n]; }
        }
        assert off < 0 ==> forall t :: 0 <= t < n ==>
          w[4 * t..4 * t + 4] == data[off + |data| + 4 * t..off + |data| + 4 * t + 4] by {
          if off < 0 && 0 < n { assert w == data[off + |data|..off + 4 * n + |data|]; }
        }
        Ok(r)
  }

  /** The header and the record layout (ste-output.py, lines 131-136). */
  function ReadHeader(data: seq<byte>, f32: F32): (r: Result<Header, Error>)
    ensures |data| < 84 ==> r == Err(StructError)
    ensures r.Err? ==> r.error == StructError
    ensures 84 <= |data| ==>
      var ds := Int32LE(data[80..84]);
      (r.Ok? <==> |PySlice(data, ds + 4, ds + 8)| == 4 && |PySlice(data, ds + 12, ds + 16)| == 4)
    ensures r.Ok? ==>
      r.value.elemNo == Int32LE(data[12..16]) && r.value.nodeNo == Int32LE(data[36..40]) &&
      r.value.dataSize == Int32LE(data[28..32]) && r.value.dataStart == Int32LE(data[80..84])
    ensures r.Ok? ==>
      var ds := r.value.dataStart;
      r.value.byteNo == Trunc(f32(PySlice(data, ds + 4, ds + 8))) &&
      r.value.meshType == Trunc(f32(PySlice(data, ds + 12, ds + 16)))
    ensures r.Ok? && 0 <= r.value.dataStart ==>
      var ds := r.value.dataStart;
      ds + 16 <= |data| &&
      r.value.byteNo == Trunc(f32(data[ds + 4..ds + 8])) &&
      r.value.meshType == Trunc(f32(data[ds + 12..ds + 16]))
  {
    // the four header reads all raise the same struct.error when short
    match (UnpackInt(data, ElemNoAt), UnpackInt(data, NodeNoAt), UnpackInt(data, DataSizeAt), UnpackInt(data, DataStartAt))
    case (Ok(elemNo), Ok(nodeNo), Ok(dataSize), Ok(dataStart)) =>
      var byteNo :- UnpackFloats(data, dataStart + ByteNoAt, 1, f32);
      var meshType :- UnpackFloats(data, dataStart + MeshTypeAt, 1, f32);
      Ok(Header(elemNo, nodeNo, dataSize, dataStart, Trunc(byteNo[0]), Trunc(meshType[0])))
    case _ => Err(StructError)
  }

  /** How many records are decoded: the payload size over 189, whatever count the header declares. */
  function RecordCount(h: Header): (n: nat)
    ensures h.dataSize < WordsPerElement ==> n == 0
    ensures 0 <= h.dataSize ==> n * WordsPerElement <= h.dataSize < (n + 1) * WordsPerElement
  {
    if h.dataSize < WordsPerElement then 0 else h.dataSize / WordsPerElement
  }

  /** The byte where record i begins: `start` begins at data_start (line 142) and advances
      by byte_no words per record (line 167), so record i begins at data_start + 4*byte_no*i. */
  function RecordStart(h: Header, i: nat): (r: int)
    ensures r == h.dataStart + 4 * h.byteNo * i
  {
    if i == 0 then h.dataStart
    else
      var p := RecordStart(h, i - 1);
      assert 4 * h.byteNo * i == 4 * h.byteNo * (i - 1) + 4 * h.byteNo;
      p + 4 * h.byteNo
  }

  /** A raw tensor in megapascals. */
  function ToMPa(s: seq<real>): (r: Tensor)
    requires |s| == 6
    ensures forall t :: 0 <= t < 6 ==> r[t] * MPa == s[t]
  {
    seq(6, t requires 0 <= t < 6 => s[t] / MPa)
  }

  /** The element row of the record at `start` (lines 150-152): its id and its tensor in MPa. */
  function DecodeElement(data: seq<byte>, f32: F32, start: int): (r: Result<Row, Error>)
    ensures 0 <= start ==> (r.Ok? <==> start + 80 <= |data|)
    ensures start < 0 ==> (r.Ok? <==>
      start + 4 < 0 <= start + |data| &&
      (start + ElementStressAt < 0 ==> start + 80 < 0 <= start + ElementStressAt + |data|) &&
      (0 <= start + ElementStressAt ==> start + 80 <= |data|))
    ensures r.Err? ==> r.error == StructError
  {
    var elem :- UnpackFloats(data, start, 1, f32);
    var dat :- UnpackFloats(data, start + ElementStressAt, 6, f32);
    Ok(Row(Trunc(elem[0]), ToMPa(dat)))
  }

  /** Slot k of a block of node words: the id, then six stress words; the eighth word is unused. */
  function SlotAt(words: seq<real>, k: nat): (r: Slot)
    requires 8 * k + 8 <= |words|
    ensures r.id == Trunc(words[8 * k])
    ensures forall t :: 0 <= t < 6 ==> r.stress[t] == words[8 * k + 1 + t]
  {
    Slot(Trunc(words[8 * k]), words[8 * k + 1..8 * k + 7])
  }

  /** The mesh_type node slots of the record at `start` (lines 154-157). */
  function DecodeSlots(data: seq<byte>, f32: F32, start: int, meshType: int): (r: Result<seq<Slot>, Error>)
    ensures r.Ok? <==>
      0 <= meshType && |PySlice(data, start + FirstSlotAt, start + FirstSlotAt + 32 * meshType)| == 32 * meshType
    ensures 0 <= start + FirstSlotAt ==>
      (r.Ok? <==> meshType == 0 || (0 < meshType && start + FirstSlotAt + 32 * meshType <= |data|))
    ensures start + FirstSlotAt < 0 && 0 < meshType ==>
      (r.Ok? <==> start + FirstSlotAt + 32 * meshType < 0 <= start + FirstSlotAt + |data|)
    ensures r.Ok? ==> |r.value| == meshType
    ensures r.Err? ==> r.error == StructError
  {
    if meshType < 0 then Err(StructError)
    else
      var words :- UnpackFloats(data, start + FirstSlotAt, 8 * meshType, f32);
      Ok(seq(meshType, k requires 0 <= k < meshType => SlotAt(words, k)))
  }

  /** Where the element row's fields come from, for a record at a non-negative offset. */
  lemma {:induction false} ElementFields(data: seq<byte>, f32: F32, start: int)
    requires 0 <= start && start + 80 <= |data|
    ensures DecodeElement(data, f32, start).Ok?
    ensures var row := DecodeElement(data, f32, start).value;
      row.id == Trunc(f32(data[start..start + 4])) &&
      forall t :: 0 <= t < 6 ==>
        row.stress[t] * MPa == f32(data[start + 56 + 4 * t..start + 60 + 4 * t])
  {
    var dat := UnpackFloats(data, start + ElementStressAt, 6, f32).value;
    assert forall t :: 0 <= t < 6 ==> dat[t] == f32(data[start + 56 + 4 * t..start + 60 + 4 * t]);
  }

  /**
   * A record at a negative offset is read the Python way, counting from the
   * end of the file: the id from byte start + |data| on, and the tensor from
   * byte start + 56 + |data| on while start + 56 is still negative, from the
   * start of the file once it is not.
   */
  lemma {:induction false} ElementFieldsFromEnd(data: seq<byte>, f32: F32, start: int)
    requires start < 0 && DecodeElement(data, f32, start).Ok?
    ensures DecodeElement(data, f32, start).value.id == Trunc(f32(data[start + |data|..start + |data| + 4]))
    ensures start + ElementStressAt < 0 ==> forall t :: 0 <= t < 6 ==>
      DecodeElement(data, f32, start).value.stress[t] * MPa ==
      f32(data[start + ElementStressAt + |data| + 4 * t..start + ElementStressAt + |data| + 4 * t + 4])
    ensures 0 <= start + ElementStressAt ==> forall t :: 0 <= t < 6 ==>
      DecodeElement(data, f32, start).value.stress[t] * MPa ==
      f32(data[start + ElementStressAt + 4 * t..start + ElementStressAt + 4 * t + 4])
  {
    ElementIsWords(data, f32, start);
    var elem := UnpackFloats(data, start, 1, f32).value;
    assert elem[0] == f32(data[start + |data| + 4 * 0..start + |data| + 4 * 0 + 4]);
  }

  /** A decoded element row is made of the two unpacked blocks of words. */
  lemma ElementIsWords(data: seq<byte>, f32: F32, start: int)
    requires DecodeElement(data, f32, start).Ok?
    ensures UnpackFloats(data, start, 1, f32).Ok? && UnpackFloats(data, start + ElementStressAt, 6, f32).Ok?
    ensures DecodeElement(data, f32, start).value ==
      Row(Trunc(UnpackFloats(data, start, 1, f32).value[0]), ToMPa(UnpackFloats(data, start + ElementStressAt, 6, f32).value))
  {
  }

  /** Slot k of a successful slot decode is read from word 8k of the unpacked block. */
  lemma SlotIsWords(data: seq<byte>, f32: F32, start: int, meshType: int, k: int)
    requires 0 <= start + FirstSlotAt && 0 <= k < meshType && start + FirstSlotAt + 32 * meshType <= |data|
    ensures UnpackFloats(data, start + FirstSlotAt, 8 * meshType, f32).Ok?
    ensures DecodeSlots(data, f32, start, meshType).Ok?
    ensures DecodeSlots(data, f32, start, meshType).value[k] ==
      SlotAt(UnpackFloats(data, start + FirstSlotAt, 8 * meshType, f32).value, k)
  {
  }

  /** The same, for a slot block at a negative offset. */
  lemma SlotIsWordsFromEnd(data: seq<byte>, f32: F32, start: int, meshType: int, k: int)
    requires start + FirstSlotAt + 32 * meshType < 0 <= start + FirstSlotAt + |data| && 0 <= k < meshType
    ensures UnpackFloats(data, start + FirstSlotAt, 8 * meshType, f32).Ok?
    ensures DecodeSlots(data, f32, start, meshType).Ok?
    ensures DecodeSlots(data, f32, start, meshType).value[k] ==
      SlotAt(UnpackFloats(data, start + FirstSlotAt, 8 * meshType, f32).value, k)
  {
  }

  /** Slot k of the block of words read from byte `base` on. */
  lemma SlotOfWords(data: seq<byte>, f32: F32, base: int, words: seq<real>, k: nat)
    requires 0 <= base && 8 * k + 8 <= |words| && base + 4 * |words| <= |data|
    requires forall j :: 0 <= j < |words| ==> words[j] == f32(data[base + 4 * j..base + 4 * j + 4])
    ensures SlotAt(words, k).id == Trunc(f32(data[base + 32 * k..base + 32 * k + 4]))
    ensures forall t :: 0 <= t < 6 ==>
      SlotAt(words, k).stress[t] == f32(data[base + 32 * k + 4 + 4 * t..base + 32 * k + 8 + 4 * t])
  {
    assert words[8 * k] == f32(data[base + 4 * (8 * k)..base + 4 * (8 * k) + 4]);
    forall t | 0 <= t < 6
      ensures SlotAt(words, k).stress[t] == f32(data[base + 32 * k + 4 + 4 * t..base + 32 * k + 8 + 4 * t])
    {
      var j := 8 * k + 1 + t;
      assert SlotAt(words, k).stress[t] == words[j];
      assert base + 4 * j == base + 32 * k + 4 + 4 * t;
    }
  }

  /** Where slot k's id and stress come from, for a slot block at a non-negative offset. */
  lemma {:induction false} SlotFields(data: seq<byte>, f32: F32, start: int, meshType: int, k: int)
    requires 0 <= start + FirstSlotAt && 0 <= k < meshType && start + FirstSlotAt + 32 * meshType <= |data|
    ensures DecodeSlots(data, f32, start, meshType).Ok?
    ensures DecodeSlots(data, f32, start, meshType).value[k].id ==
      Trunc(f32(data[start + 116 + 32 * k..start + 120 + 32 * k]))
    ensures forall t :: 0 <= t < 6 ==>
      DecodeSlots(data, f32, start, meshType).value[k].stress[t] ==
      f32(data[start + 120 + 32 * k + 4 * t..start + 124 + 32 * k + 4 * t])
  {
    SlotIsWords(data, f32, start, meshType, k);
    SlotOfWords(data, f32, start + FirstSlotAt, UnpackFloats(data, start + FirstSlotAt, 8 * meshType, f32).value, k);
  }

  /** A slot block at a negative offset is read from byte start + 116 + |data| on. */
  lemma {:induction false} SlotFieldsFromEnd(data: seq<byte>, f32: F32, start: int, meshType: int, k: int)
    requires start + FirstSlotAt + 32 * meshType < 0 <= start + FirstSlotAt + |data| && 0 <= k < meshType
    ensures DecodeSlots(data, f32, start, meshType).Ok?
    ensures DecodeSlots(data, f32, start, meshType).value[k].id ==
      Trunc(f32(data[start + FirstSlotAt + |data| + 32 * k..start + FirstSlotAt + |data| + 32 * k + 4]))
    ensures forall t :: 0 <= t < 6 ==>
      DecodeSlots(data, f32, start, meshType).value[k].stress[t] ==
      f32(data[start + FirstSlotAt + |data| + 32 * k + 4 + 4 * t..start + FirstSlotAt + |data| + 32 * k + 8 + 4 * t])
  {
    SlotIsWordsFromEnd(data, f32, start, meshType, k);
    SlotOfWords(data, f32, start + FirstSlotAt + |data|, UnpackFloats(data, start + FirstSlotAt, 8 * meshType, f32).value, k);
  }
}
