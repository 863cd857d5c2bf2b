# STE stress extractor — a Dafny model

This project models the core of the STE stress extractor, `STE_StressExtractor._extract_stress`. It reads a whole STE result file as bytes and does the following:

- It decodes the header: the declared element count, the node count, the payload size and the offset of the record area. It then reads the two layout words found there: the record size in words and the number of node slots per element.
- It walks `data_size / 189` fixed-stride element records.
- For each record it writes one element row: the element id and its six stress components, converted from Pa to MPa.
- It adds every node slot of the record into a per-node accumulator table that is pre-sized to `node_no` rows and updated in place. Along the way it tracks `real_node_no`, the largest node id seen.
- At the end it writes one averaged row for each node id `1..real_node_no`.

How the model is laid out:

- `bytes.dfy` (module `Bytes`) holds Python's slice semantics, the little-endian two's-complement `'i'` decoding with its inverse, and `int()` of a float (truncation toward zero).
- `layout.dfy` (module `SteLayout`) models `struct.unpack` and its `struct.error`. It also has the header and layout reads, the record count, the record start offsets, and the element and node-slot decoding of one record.
- `nodes.dfy` (module `NodeTable`) is the accumulator. It covers Python's `output_node[id - 1]` indexing, including negative indexes and `IndexError`, the inner slot loop as a function with its tally lemmas, and the averaging loop with its `ZeroDivisionError`.
- `extract.dfy` (module `Extractor`) holds the extraction as the specification function `Run`. `Run` returns both reports and the exception raised, if any, with the rows written before that exception. The module also holds the lemmas about `Run`.
  - `Run` runs the averaging loop of line 171 over `range(real_node_no)` with `real_node_no` taken as an int. That is the corrected reading of the code (see "## Findings").
  - `RunAsWritten` is the code as written. There `real_node_no` keeps its Python type: the float `0.0` of line 145 until a slot raises it to an int id. `range()` of that float raises `TypeError`.
  - The imperative form keeps the source's loops. Class `StressExtractor` holds the record `for` loop (`RecordLoop`) and the averaging loop (`EmitAverages`). The module-level methods `AccumulateSlots` and `AddToRow` hold the slot loop and the inner `j` loop, over a table held in an `array`.
  - `_save_element` and `_save_node` append to two report sequences.
  - `ExtractStress` is proved to append exactly `Run`'s rows and to return its exception. So `ExtractStress` and `EmitAverages` also follow the corrected bound, not the as-written one.

Inputs and outside calls become parameters:

- The file contents are the parameter `data: seq<byte>`.
- Single-precision words are decoded by an abstract decoder `f32: seq<byte> -> real`, applied to each 4-byte word. Arithmetic on the decoded values is exact real arithmetic.

What the code does that one might not expect (the model follows the code in each case):

- A node n in `1..real_node_no` whose row no slot reached (no slot with id n, nor with id `n - node_no`, which negative indexing sends to the same row) keeps the count 0. The averaging loop divides by that count and raises `ZeroDivisionError`; the node rows before it stay written.
- The accumulator has exactly `node_no` rows (none for a negative `node_no`) and never grows. An id in `1 - node_no..0` is a negative Python index and lands on row `id - 1 + node_no`. An id above `node_no` or below `1 - node_no` raises `IndexError`.
- Slot stresses are summed raw. The node average is `sum / count / 1000000`, and the element stress is `word / 1000000`.
- The fields are read at fixed offsets from the record start: 0, 56 and `116 + 32k`. The stride `4 * byte_no` is read separately, so the stride and the field offsets need not agree.
- A short or out-of-range slice makes `struct.unpack` raise `struct.error`, and a negative `mesh_type` makes the format string invalid, which also raises `struct.error`. The rows already written stay written: whether or not the loop raised, element row i is record i's decoded element. A record whose element words are whole but whose slot block is short still gets its element row written.
- A negative offset slices from the end of the file, as Python does.
- The header integers are signed.
- `data_size / 189` is Python 2 floor division, so a negative payload size gives no records. The element count declared at byte 12 is read and then overwritten.
- `real_node_no` starts as the float `0.0`; see "## Findings".

## Model

| member | source | states |
|---|---|---|
| Bytes.PySlice | ste-output.py:131-136 | `data[lo:hi]` as Python slices: the result is never longer than the input. In range it is `s[lo..hi]`; negative bounds count from the end; the slice is empty when it is out of range |
| Bytes.Int32LEOfEncode | ste-output.py:131-134 | decoding a 4-byte `'i'` word undoes encoding any signed 32-bit value |
| Bytes.EncodeOfInt32LE | ste-output.py:131-134 | encoding undoes decoding, so every 4-byte word denotes exactly one signed 32-bit value |
| Bytes.Int32LE | ste-output.py:131-134 | the decoded value lies in [-2^31, 2^31) and is negative exactly when the top bit of byte 3 is set |
| Bytes.Trunc | ste-output.py:135-136 | `int()` of a float truncates toward zero: `0 <= n <= x < n+1` for `x >= 0`, and `n-1 < x <= n <= 0` for `x < 0` |
| SteLayout.UnpackInt | ste-output.py:131-134 | `struct.unpack('i', ...)` succeeds exactly when the slice has 4 bytes, which at a non-negative offset means `off+4 <= len`. Its value is the little-endian word there; a failure is always `struct.error` |
| SteLayout.UnpackFloats | ste-output.py:135-136 | `struct.unpack(str(n)+'f', data[off:off+4n])` succeeds exactly when the slice holds `4n` bytes. At a non-negative offset that means `n == 0` or `off+4n <= len`, and word t is `f32` of bytes `off+4t..off+4t+4`. At a negative offset it means the slice lies wholly before the end, `off+4n < 0 <= off+len`, and word t is `f32` of bytes `off+len+4t..off+len+4t+4`. Every failure is `struct.error` |
| SteLayout.ReadHeader | ste-output.py:131-136 | a file under 84 bytes raises `struct.error`. Otherwise the header succeeds exactly when the 4-byte slices at `data_start+4` and `data_start+12` exist. elem_no, node_no, data_size and data_start are the words at bytes 12, 36, 28 and 80; byte_no and mesh_type are the truncated floats at `data_start+4` and `data_start+12`. Every failure is `struct.error` |
| SteLayout.RecordCount | ste-output.py:139 | the record count is the floor of `data_size / 189`, and 0 when data_size is below 189 |
| SteLayout.RecordStart | ste-output.py:142-167 | `start` begins at data_start (line 142) and advances by `4*byte_no` per record (line 167), so record i begins at `data_start + 4*byte_no*i` |
| SteLayout.ToMPa | ste-output.py:152 | each reported element component times 1000000 is the raw word |
| SteLayout.DecodeElement | ste-output.py:150-151 | at a non-negative record start, the element row decodes exactly when `start+80 <= len`. At a negative start, it decodes exactly when the id word lies wholly before the end and the tensor slice is whole, read from the end while `start+56` is negative and from the front otherwise. A failure is `struct.error` |
| SteLayout.SlotAt | ste-output.py:157-165 | slot k's id is word `8k` truncated (line 157), and its component `j-1` is word `j+8k` for j in 1..6 (line 165) |
| SteLayout.DecodeSlots | ste-output.py:154 | the slot block decodes exactly when mesh_type is non-negative and the `32*mesh_type`-byte slice is whole; then there are exactly mesh_type slots. At a non-negative block offset `start+116` that means `start+116+32*mesh_type <= len`; at a negative one, that the block lies wholly before the end. A negative mesh_type raises `struct.error` |
| SteLayout.ElementFields | ste-output.py:150-152 | the element id is the truncated word at the record start, and component t times 1000000 is the word at bytes `56+4t` of the record |
| SteLayout.ElementFieldsFromEnd | ste-output.py:150-152 | at a negative record start, the id is the truncated word at byte `start+len`. Component t times 1000000 is the word at `start+56+len+4t` while `start+56` is negative, and at `start+56+4t` once it is not |
| SteLayout.SlotFields | ste-output.py:154-157 | when the slot block starts at a non-negative byte `start+116`, slot k's id is the truncated word at record byte `116+32k`, and its component t is the word at `120+32k+4t` (line 165 adds words `8k+1..8k+6`) |
| SteLayout.SlotFieldsFromEnd | ste-output.py:154-157 | when the slot block starts before byte 0, it is read from the end: slot k's id is the truncated word at `start+116+len+32k`, and component t is the word 4 bytes further plus `4t` |
| NodeTable.RowIndex | ste-output.py:161 | `output_node[id-1]` reaches a row exactly when `-len <= id-1 < len`. For ids 1..len it is row `id-1`; otherwise it counts from the end |
| NodeTable.Added | ste-output.py:162-165 | one more contribution: the count grows by one and each of the six sums by the slot's component |
| NodeTable.ApplySlots | ste-output.py:156-165 | the slot loop succeeds exactly when every slot's id reaches a row. The table keeps its length and real_node_no never decreases; real_node_no stays within the table when it started there |
| NodeTable.ApplySlotsTally | ste-output.py:156-165 | after the slot loop, each row's count grows by the number of slots landing on it, and each sum by their total. real_node_no becomes the larger of its old value and the slots' peak id |
| NodeTable.ApplySlotsFailure | ste-output.py:161 | a failing slot loop stops with `IndexError(id)` at the first slot whose id reaches no row, every earlier id having reached one |
| NodeTable.CountIsOccurrences | ste-output.py:161-162 | when every id is within 1..len, row `id-1` counts exactly the slots carrying that id |
| NodeTable.PeakIsMaximum | ste-output.py:158-159 | the tracked maximum is at least 0, bounds every id seen, and is 0 or one of those ids |
| NodeTable.TallyAppend | ste-output.py:148-165 | counts, totals and the peak of successive records combine additively (the peak by maximum) |
| NodeTable.Mean | ste-output.py:173 | each averaged component times the count times 1000000 is the row's sum |
| NodeTable.Averages | ste-output.py:171-173 | rows come out in ascending id from 1, each the mean of a row with a positive count. On success there are exactly n rows. Otherwise the failure is `ZeroDivisionError` at the first untouched id, and only the rows before it are written |
| NodeTable.AveragesSucceed | ste-output.py:171-173 | the averaging loop completes exactly when every node 1..n received a contribution |
| NodeTable.AveragesFailureSticks | ste-output.py:171-173 | once the averaging loop has raised, running it over more ids changes nothing |
| Extractor.TableSize | ste-output.py:144 | `[[0]*7 for i in range(node_no)]` has node_no rows, and none for a negative node_no |
| Extractor.Step | ste-output.py:150-167 | a failing element read stops the pass with its error and writes nothing. Otherwise the element row is written before the slots are read, so it is kept when they fail. The pass succeeds exactly when the slots unpack and every id reaches a row, and then the table and real_node_no are the slot loop's |
| Extractor.DecodeRecord | ste-output.py:150-154 | record i's element and slots are read from byte `data_start + 4*byte_no*i` |
| Extractor.Scanned | ste-output.py:144-167 | the loop over data_size/189 records on a table of node_no rows: the table keeps node_no rows, real_node_no stays at least 0, and a completed loop writes one element row per record |
| Extractor.ScanRecords | ste-output.py:144-167 | the table always has node_no rows (none when node_no < 0) and real_node_no stays at least 0. A completed loop writes one element row per record and leaves real_node_no within the table. `Extractor.ScanCompletes` states when the loop completes; `Extractor.ScanElementRows` and `Extractor.ScanTally` state what a completed loop implies |
| Extractor.ScanCompletes | ste-output.py:148-165 | the record loop completes when every record's element and slots unpack and every slot id reaches a row of the table |
| Extractor.ScanFailureSticks | ste-output.py:148-167 | once the record loop has raised, the later passes change nothing |
| Extractor.ScanElementRows | ste-output.py:148-152 | a completed loop wrote exactly one element row per record, in record order, each the decoded element of that record |
| Extractor.ScanElementPrefix | ste-output.py:148-167 | whether or not the loop raised, the element rows it wrote are the decoded elements of records 0, 1, ... in record order |
| Extractor.ScanDecoded | ste-output.py:150-157 | a completed loop unpacked the element and the slots of every record |
| Extractor.ScanTally | ste-output.py:144-165 | after a completed loop, every row's count and sums are the count and totals of the slots landing on it over the whole file; every slot's id was in range; real_node_no is the peak id |
| Extractor.StepTally | ste-output.py:150-165 | one pass of the record loop keeps the table a tally of the slots seen so far |
| Extractor.MaxIdNeverDecreases | ste-output.py:158-159 | real_node_no never decreases across passes of the record loop |
| Extractor.ScanAveragesComplete | ste-output.py:171-173 | after a completed loop, the averaging loop completes when every node 1..real_node_no received a contribution |
| Extractor.ScanAverages | ste-output.py:171-173 | after a completed loop and averaging, there are `peak` node rows, at most node_no. Row i has id i+1 and a positive count, and component j equals that node's total over its count over 1000000 |
| Extractor.Run | ste-output.py:130-173 | a header that cannot be read raises `struct.error` before anything is written. At most data_size/189 element rows are written. Any exception other than `ZeroDivisionError` leaves the node report empty |
| Extractor.RunCompletes | ste-output.py:130-173 | the extraction raises nothing when the header reads, every record's element and slots unpack, every slot id reaches a row, and every node 1..real_node_no received a contribution |
| Extractor.RunNeedsAll | ste-output.py:130-173 | the converse of RunCompletes: an extraction that raises nothing read its header, unpacked every record, found a row for every slot id, and had a contribution for every node 1..real_node_no |
| Extractor.RunElementPrefix | ste-output.py:139-152 | for any header that reads, raising or not, element row i is the decoded element of the record at data_start + 4*byte_no*i |
| Extractor.RecordsDecode | ste-output.py:150-154 | records whose element and slot reads succeed appear as such in the list of records the loop visits |
| Extractor.RunSucceeded | ste-output.py:139-173 | on success: the element rows number data_size/189, each decoded from its record; the node rows are ids 1..real_node_no in order, holding the averaged totals of every slot in the file |
| Extractor.RunElementRow | ste-output.py:150-152 | on success, element row i comes from the record at `data_start + 4*byte_no*i`. Its id is the truncated word there, and each component times 1000000 is the word at record bytes `56+4t` |
| Extractor.RunElements | ste-output.py:148-152 | on success, the element rows number data_size/189 and row i is the decoded element of record i |
| Extractor.RunElement | ste-output.py:142-152 | on success, element row i is the decoded element of the record at record start i |
| Extractor.ScanIndexError | ste-output.py:161 | a record loop that raised `IndexError` met an id above node_no or below `1-node_no` |
| Extractor.RunIndexError | ste-output.py:161 | an extraction raising `IndexError` met an id above node_no or too far below 1 for negative indexing to reach a row |
| Extractor.RecordIgnoresCount | ste-output.py:131 | record i decodes the same whatever element count byte 12 declares |
| Extractor.DeclaredCountIgnored | ste-output.py:131 | the element count declared at byte 12 affects neither the record loop nor the slots seen (it is overwritten at line 139) |
| Extractor.RunFailsOnUntouchedNode | ste-output.py:171-173 | a node n in 1..real_node_no whose row no slot reached (no slot with id n, nor with id n - node_no) makes the extraction raise `ZeroDivisionError` at or before it; only the node rows before the failing id are written |
| Extractor.PyValue | ste-output.py:158 | the numeric value the comparison `real_node_no < int_val` uses: a float's own value, an int's as a real |
| Extractor.RaiseAsWritten | ste-output.py:145-159 | lines 158-159 applied to every slot in turn, keeping real_node_no's Python type: the result is the starting value or an int, never smaller than the start, and at least every id seen (`RaiseIsPeak` gives its exact value) |
| Extractor.RaiseIsPeak | ste-output.py:145-159 | starting from the float 0.0, real_node_no stays that float when no slot carries a positive id, and otherwise ends as the int holding the largest id |
| Extractor.PyRange | ste-output.py:171 | `range()` raises `TypeError` exactly for a float; an int n gives n ids, none for a negative n |
| Extractor.RunAsWritten | ste-output.py:130-173 | the code as written writes the same element rows as `Run`. If it differs from `Run` at all, it raises `TypeError` where `Run` completes with no node rows |
| Extractor.AsWrittenDiffers | ste-output.py:171 | the as-written extraction differs from the corrected one exactly when the scan completes without a positive node id. It then raises TypeError where the corrected one writes no node rows |
| Extractor.NoRecordsAsWritten | ste-output.py:139-171 | a file whose header reads but whose data_size is below 189: as written it raises TypeError; corrected, it writes two empty reports |
| Extractor.EmptyPayloadAsWritten | ste-output.py:131-171 | a 100-byte file of zeros shows the TypeError as written and two empty reports when corrected |
| Extractor.RepeatedIdCountedTwice | ste-output.py:156-165 | two slots with the same id in one record both count: that row's count grows by 2 and its sums by both stresses; other rows are unchanged |
| Extractor.UntouchedNodeRaises | ste-output.py:171-173 | with only node 3 of three contributed to, averaging raises `ZeroDivisionError` at node 1 and writes nothing |
| Extractor.TwoContributionsAverage | ste-output.py:161-173 | contributions of 2e6 and 4e6 Pa to node 1 average to 3 MPa |
| Extractor.AddToRow | ste-output.py:161-165 | the in-place `j` loop leaves the table equal to the old table with row r's count one higher and its sums increased by the stress |
| Extractor.AccumulateSlots | ste-output.py:156-165 | the in-place slot loop ends in the state `ApplySlots` gives; it raises exactly when `ApplySlots` fails, and with the same error |
| Extractor.StressExtractor.constructor | ste-output.py:66-69 | both reports start empty |
| Extractor.StressExtractor.SaveElement | ste-output.py:105-107 | appends one element row; the node report is unchanged |
| Extractor.StressExtractor.SaveNode | ste-output.py:115-117 | appends one node row; the element report is unchanged |
| Extractor.StressExtractor.EmitAverages | ste-output.py:169-173 | for real_node_no given as an int (the corrected bound), appends exactly the rows `Averages` gives for ids 1..real_node_no and returns its failure |
| Extractor.StressExtractor.ProcessRecord | ste-output.py:150-167 | one pass writes the element row, then adds the slots in place, moving the state as one step of `ScanRecords` does |
| Extractor.StressExtractor.RecordPass | ste-output.py:148-167 | pass i moves the loop state from `ScanRecords` after i passes to after i+1; when it raises, that state is already the final one |
| Extractor.StressExtractor.ScanFile | ste-output.py:139-167 | allocates a fresh node table, then appends exactly the element rows of the scan, raises what it raises, and leaves the new accumulator array and real_node_no as it says |
| Extractor.StressExtractor.RecordLoop | ste-output.py:148-167 | the `for` loop over the records, in place on the table, ends in the state of the scan after data_size/189 passes, or stops at the same exception |
| Extractor.StressExtractor.ExtractStress | ste-output.py:120-176 | the extraction with the corrected averaging bound appends exactly `Run`'s element and node rows to the reports and returns `Run`'s exception (`RunAsWritten` is the code as written) |

## Left out

- The command-line runner `main`, with option parsing and log levels (ste-output.py:6-47): not part of the extraction.
- `extract_stress_to_files` (ste-output.py:71-97) is left out. It covers opening the input and the two output files, the default file names, writing the header lines, and closing the files. The reports are modelled as row sequences.
- The row formatters `_element_formater` and `_node_formater` (`%8d` and `%16.6e`, ste-output.py:100-112): text formatting is not modelled.
- Logging and timing (ste-output.py:126, 128, 137-138, 140, 147, 169-170, 175-176): they have no effect on the rows.
- The IEEE-754 meaning of a float word is not modelled. Words are decoded by the abstract `f32`, and sums and quotients are exact reals, so float rounding and its summation-order effects are not captured.
- `Bytes.Trunc`: `int()` of a NaN or an infinite word raises in Python. Working on reals, the model has no such words and no such errors.
- The native byte order and size of `struct`'s `'i'` and `'f'` are taken as little-endian, 4 bytes.
- `Extractor.RunElementRow`: stated for a record at a non-negative offset. For a negative offset, `Extractor.RunElement` ties the row to the record's decode, and `SteLayout.ElementFieldsFromEnd` states which bytes that decode reads.
- `SteLayout.ElementFields`: stated for a record at a non-negative offset. `SteLayout.ElementFieldsFromEnd` states the negative case.
- `SteLayout.SlotFields`: stated for a slot block at a non-negative offset. `SteLayout.SlotFieldsFromEnd` states the negative case.

## Findings

| source | as written | input that shows it | evidently intended | confidence | as-written member | corrected member |
|---|---|---|---|---|---|---|
| ste-output.py:145, ste-output.py:171 | `real_node_no = 0.0` is a float. It becomes an int only when a slot carries a positive id, so `range(real_node_no)` gets `0.0` and Python 2.7 raises TypeError | a 100-byte file of zeros: data_size 0, so no record is read | no node rows and a normal finish, as `range(0)` of the int 0 would give | medium, not executed; Python 2.7's range() rejects a float argument | Extractor.RunAsWritten, with Extractor.RaiseIsPeak, Extractor.EmptyPayloadAsWritten and Extractor.NoRecordsAsWritten | Extractor.Run, with Extractor.AsWrittenDiffers |
