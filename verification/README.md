# Sereal, verified

Sereal is a binary serialisation format. The body of a document is a stream of tags in prefix order; some
tags (COPY, REFP, ALIAS, OBJECTV) carry byte offsets back into the same body. This project models the parts of
Sereal that rewrite such streams without decoding them, the data structures under them, and the codec base:

- the Perl **merger** (two passes over a document, a stack of referred-to offsets, deduplication, rollback);
- the Perl **splitter** (an explicit control stack that cuts one array into self-contained chunks);
- the Go **merger** (one loop with a stack of 32-bit counters);
- the inlined **quicksort**, the **string index** with its arenas, and the **pointer table**;
- **varints** (fast and safe readers, self-padding fields), zigzag, and the Go **encoder and decoder**.

## How it fits together

`Wire` is the reference: `Scan` reads one tag (track flag masked, offsets counted from one), `Parse` is the
grammar over a list of places still to fill, and `Meaning(b, p, d)` is the tree an item denotes when every
reference is followed down to depth `d`; two items mean the same when their trees agree at every depth, so
cycles are no obstacle. A malformed link makes the tree `Bad`; `Clean` says that nothing reachable is. A COPY
may only lead to a string, so a COPY of a COPY is `Bad` too.

`Mapping` says what a translation of one stream into another must respect *locally*, tag by tag, and proves that
it then preserves meaning *globally*. Both mergers are proved against it. `Splitting` does the same for the
splitter, where one input tag may be written many times and references are expanded.

`Tags`, `Depth` and `GoMeaning` give tags by their numbers, so that the names the other modules use mean what the
protocol says they mean.

Bodies are held with one byte in front (index 0), so that the tag at offset k is `b[k]`.

| file | contents |
|---|---|
| Varint, VarintIO | the reference varint; the readers and writers of the source against it; zigzag |
| Wire, Tags | tags, grammar, meaning; the same in figures, without the names of the constants |
| Mapping, Faults | translations preserve meaning; how one that bends the rules gives itself away |
| QuickSort, Offsets, SortKeys | the sort, and the merger's and the encoder's use of it |
| MergerState, Depth, Merger, MergerResult, MergerRuns | the Perl merger: invariants, how deep it counts itself, the class, the meaning of its output, runs on given documents |
| Splitting, SplitterState, SplitterResult, Splitter, SplitterRuns | the Perl splitter: theory, states of its machine, the meaning of chunks, the class, a run |
| Chains, StrTable, PTable | bucket chains; the string index; the pointer table and its iterator |
| GoSpec, GoMeaning, GoDecoder, GoEncoder, GoCodec | the Go codec: the reference decoder, what it makes of an item against `Wire.Meaning`, the two classes, the round trip |
| GoMergeState, GoForms, GoMerger, GoRuns | the Go merger: its counters and one step of it, the forms of strings, the class, runs on given documents |
| Examples | a document with every kind of link that meets the conditions of the Perl results |

Operations of the source that change state are methods of classes; ghost fields record the translation they
build (`m`, `img`, `marks` in the mergers; `owed`, `src` in the splitter). A ghost flag `honest` says that every
document so far was one the merger promises something for; malformed documents are accepted by every operation,
and what is promised then is only what holds of them.

## What the proofs brought to light

- Perl merger: when the class name of an object is a COPY, the object's own tag is not written
  (`MergerRuns.BorrowedRun`). A finished merge means what was merged exactly when no class name is a COPY
  (`Merger.Session`).
- String index, and through it the Perl merger: a purge that leaves the newest arena exactly empty makes the next
  purge read in front of it (`StrTable.PurgeTwice`, `MergerRuns.ArenaRun`). A purge fails exactly when
  `CanPurge` does not hold, and leaves such a table exactly when what remains is a positive multiple of the size of
  an arena and less than before (`StrTable.PurgeAfter`); a run of appends ends there exactly at a rollback with
  such a table (`Merger.Session`).
- Perl merger: REFN, WEAKEN, OBJECTV and runs of padding raise the count of levels by one that is never given
  back, so an array of two references is refused where an array of one is not, though it nests no deeper
  (`MergerRuns.LeakRun`). A well-formed document is too deep exactly when at one of its tags the arrays, hashes and
  objects still open and the levels lost before it reach the limit (`Depth.Shallow`, `Merger.Merger.MergeValue`).
- Pointer table: deleting does not lower the count of items, so the assertion at the start of an iteration fails
  on a table whose entries have all been deleted (`PTable.EmptiedTable`; the exact condition is in
  `PTable.Iterator.Start`).
- Varint reader: at the end of the buffer, when the last byte ends a number, the reader goes on past the end
  (`PastEnd` in `VarintIO.Reader.ReadUv`).
- Go decoder: zigzag is undone correctly exactly for negative numbers (`VarintIO.GoZigzag`). Otherwise a
  well-formed item decodes to the value its tree denotes, and does so, when each COPY leads to a string of a
  length it accepts, exactly if none of its tags is one the decoder refuses (`GoMeaning.DecodesItem`,
  `GoMeaning.DecodedExactly`).
- Go merger: a key equal in bytes to one of the other form takes that form (`GoRuns.KeyChangesForm`). A finished
  merge means what was merged exactly when each document is one well-formed item and strings that are looked up in
  the same table and have the same bytes have the same form (`GoMerger.MergeAll`).
- Go merger: a document that ends too early is accepted and counted (`GoRuns.EmptyDocument`). The finished body is
  one well-formed item exactly when all documents were (`GoMerger.MergeAll`).
- Go merger: well-formed documents are refused when a COPY stands right behind the tag it names
  (`GoRuns.CopyTooClose`), and when it names a class name (`GoRuns.ClassNameCopied`) or anything else noted at or
  behind something that the second pass does not ask for. A document is merged exactly when it is `Traceable`
  (`GoMerger.Merger.Append`).
- Go merger: what a refused document had looked up before stays in the tables (`GoRuns.ClassNameCopied`), and a
  string appended next can become a COPY of a place that is not there (`GoRuns.StaleTable`). The tables name
  only the output exactly when nothing was new that was looked up in front of the COPY that stopped the pass
  (`GoMerger.Merger.Append`).

## Model

| member | source | states |
|---|---|---|
| Wire.ScanShift | Perl/shared/srl_protocol.h:8-137 | what a tag is depends on its own bytes only, not on where it stands nor on the track flag |
| Tags.ReadsValue | Perl/shared/srl_protocol.h:8-137 | in figures, for every value tag from 0 to 127: what a byte and those behind it read as, and where that ends; FLOAT is 34 and 4 bytes, DOUBLE 35 and 8 |
| Tags.ReadsOther | Perl/shared/srl_protocol.h:8-137 | the same for tags that hold items, links, padding, and those that are not read |
| Tags.Follows | Perl/Decoder/srl_decoder.c:1746-1871 | how many items follow each tag, and which of them are keys |
| Tags.KeysOnly | Perl/Merger/srl_merger.c:1017-1065 | only strings and COPY may be keys; REGEXP, EXTEND and reserved tags are never read |
| Tags.Places | Perl/Decoder/srl_decoder.c:1746-1871 | the first child begins behind the tag, each other where the one before it ends |
| Tags.MeansItself | Perl/Decoder/srl_decoder.c:1776-1801 | numbers, floats, constants and strings mean their tag and payload |
| Tags.MeansOther | Perl/Decoder/srl_decoder.c:1810-1834 | padding means what is behind it, ALIAS what it points at, COPY the string it points at |
| Tags.MeansHolder | Perl/Decoder/srl_decoder.c:1803-1813 | references, arrays, hashes and objects mean their tag over the meanings of what follows |
| Tags.MeansPointer | Perl/Decoder/srl_decoder.c:1805-1809 | REFP means a reference to its target; OBJECTV an object of the class name it points at |
| Wire.ParseSplit | Perl/Decoder/srl_decoder.c:1746-1871 | reading items for a list of places is reading for its front and then for the rest |
| Wire.ResolveFixed | Perl/Decoder/srl_decoder.c:1746-1871 | following padding, ALIAS and COPY ends at a tag that stands for itself |
| Varint.ReadWrite | Perl/Encoder/srl_buffer.h:233-243 | reading back a written 64-bit number gives the number, and consumes exactly what was written, at most ten bytes |
| Tags.ReadWorth | Perl/shared/srl_reader_varint.h:37-57 | a varint is read exactly where a byte below 128 comes within ten, and is what its base-128 digits are worth, modulo 2^64 |
| Tags.WriteWorth | Perl/Encoder/srl_buffer.h:233-243 | what is written for a number has digits that are worth it, and no leading zero |
| VarintIO.Reader.ReadSafe | Perl/shared/srl_reader_varint.h:37-57 | the checked loop returns what the reference reads and where it ends, or fails where the reference does |
| VarintIO.Reader.ReadQuad | Perl/shared/srl_reader_varint.h:59-100 | four unrolled steps collect the next four digits, or stop where the number ends |
| VarintIO.Reader.ReadUnrolled | Perl/shared/srl_reader_varint.h:144-155 | whenever the buffer holds the longest varint or ends in a last digit, the unrolled reader agrees with the reference and stays inside |
| VarintIO.Reader.ReadUv | Perl/shared/srl_reader_varint.h:157-183 | with a byte left, whichever reader is chosen agrees with the reference; at the end, exactly when it overruns |
| VarintIO.AgreesOnce | Perl/shared/srl_reader_varint.h:37-183 | fast and safe reader return the same value and position, or fail alike |
| VarintIO.VarintLength | Perl/shared/srl_reader_varint.h:25-35 | the computed length is the length of what is written |
| VarintIO.UpdateVarint | Perl/Encoder/srl_compress.h:50-73 | a number that fits is written over exactly the bytes of the field; nothing else changes |
| VarintIO.FilledReads | Perl/Encoder/srl_compress.h:50-73 | such a field of up to ten bytes, padded or not, reads back as the number and is consumed entirely |
| VarintIO.ZigzagBijection | Perl/Decoder/srl_decoder.c:873-879 | zigzag and its inverse are a bijection between the signed and the unsigned 64-bit numbers |
| VarintIO.GoZigzag | Go/sereal/decode.go:477-480 | the Go inverse of zigzag is right exactly for negative numbers |
| QuickSort.MedianOfThree | Perl/shared/qsort.h:171-179 | the three elements come out in order, nothing else moves |
| QuickSort.CollapseWalls | Perl/shared/qsort.h:181-208 | the scans stay inside the part, the moving pivot is followed, and what is left of one pointer is not above what is right of the other |
| QuickSort.PendingNext | Perl/shared/qsort.h:215-235 | the parts still to sort account for all disorder; pushing the larger one keeps every part small for its depth |
| QuickSort.DepthBound | Perl/shared/qsort.h:106-116 | a part of at least twelve elements at depth d, halved d times, leaves room on the 32-slot stack |
| QuickSort.RemainderWork | Perl/shared/qsort.h:162-236 | every round of the loop has less left to do |
| QuickSort.QuickPhase | Perl/shared/qsort.h:155-237 | terminates within the stack, permutes, and leaves the least elements within the first five places |
| QuickSort.SentinelFirst | Perl/shared/qsort.h:245-264 | afterwards the first element is the least of all |
| QuickSort.InsertionPhase | Perl/shared/qsort.h:266-287 | with the least element in front the unguarded scan stops, and the result is a sorted permutation |
| QuickSort.QSort | Perl/shared/qsort.h:144-290 | a sorted permutation, for every array of fewer than 2^32 elements and every strict weak order |
| Offsets.Dedupe | Perl/Merger/srl_merger.c:1314-1329 | keeps the same offsets; of a sorted stack, each once and strictly falling |
| Offsets.SortOffsets | Perl/Merger/srl_merger.c:1300-1329 | sort and dedupe give the strictly falling list of the same offsets |
| SortKeys.PlainIsLexical | Perl/Encoder/srl_encoder.c:1283-1295 | comparing by common length and then by length is the order of the dictionary |
| SortKeys.PlainIsTotal | Perl/Encoder/srl_encoder.c:1283-1295 | a strict weak order in which different keys are never equivalent |
| SortKeys.FastSorted | Perl/Encoder/srl_encoder.c:1297-1318 | sorted means: lengths never fall; among equal lengths UTF-8 keys come first; among those of one length and form keys rise as in the dictionary |
| SortKeys.SortHashKeys | Perl/Encoder/srl_encoder.c:1324-1348 | the array is left in that order, which is said without naming the comparison, and it is the only such arrangement of the keys, however the hash was walked |
| SortKeys.ShorterFirst | Perl/Encoder/srl_encoder.c:1307-1309 | a run: a key of one byte comes before a key of two |
| Mapping.LockStep | Perl/Merger/srl_merger.c:744-883 | reading an item in a document and its image in the output runs in lock step, to corresponding ends |
| Mapping.ResolveTwins | Perl/Merger/srl_merger.c:948-959 | following links from an item and from its image leads to corresponding tags, or to equal strings |
| Mapping.HeadTwins | Perl/Merger/srl_merger.c:744-1166 | corresponding tags have the same shape and corresponding children, whether or not strings and class names were deduplicated |
| Mapping.SameMeaning | Perl/Merger/srl_merger.c:744-1166 | a translation that is right at every tag preserves meaning at every depth, and nothing in it is malformed |
| Mapping.TargetsSound | Perl/Merger/srl_merger.c:660-739 | every offset the flat scan of a sound document notes names one of its tags |
| Depth.DepthOpen | Perl/Merger/srl_merger.c:757-758 | an array, hash or object fits below the limit exactly when it is not too deep itself and what it holds fits one level lower; it leaks what its members leak |
| Depth.DepthFront | Perl/Merger/srl_merger.c:836-864 | a prefix tag takes a level that is not given back |
| Depth.DepthSplit | Perl/Merger/srl_merger.c:885-926 | complete items and what follows them fit exactly when the items do and the rest does, as many levels lower as they leaked |
| Faults.MappedBalance | Perl/Merger/srl_merger.c:744-1166 | a translation has as many places to fill as its source, less one for each class name that is a COPY |
| Faults.FormShows | Go/sereal/merge.go:464-472 | a string that changed its form shows in the meaning of every item that holds it |
| Merger.Merger.CopyContent | Perl/Merger/srl_merger.c:1261-1272 | appends exactly the next n bytes |
| Merger.Merger.CopyVarint | Perl/Merger/srl_merger.c:1274-1298 | appends exactly the bytes of one number, or fails where there is none |
| Merger.Merger.SkipTag | Perl/Merger/srl_merger.c:660-739 | the flat scan steps over one tag as the reference reads it, and notes its offset; it fails exactly on an offset that points ahead and on what cannot be read, unless that is a float or a short string cut short |
| Merger.Merger.BuildTrackTable | Perl/Merger/srl_merger.c:649-742 | the stack is the strictly ordered set of the offsets that occur in the document; a document with sound links passes exactly when every tag can be read, but for a float or a short string cut short at its end |
| Merger.Merger.Track | Perl/Merger/srl_merger.c:1168-1178 | a referred-to tag is met exactly when its offset is on top; then it is popped and its new place entered |
| Merger.Merger.LookupOffset | Perl/Merger/srl_merger.c:1180-1196 | succeeds exactly on an entered offset inside the output |
| Merger.Merger.ReadTarget | Perl/Merger/srl_merger.c:822-828 | in a sound document the offset of a link is known when it is reached, and is the image of its target |
| Merger.Merger.Find | Perl/Merger/srl_merger.c:1198-1242 | finds an entry with these very bytes in the output, and fails only if no entry has them |
| Merger.Merger.Shares | Perl/Merger/srl_merger.c:1198-1219 | in figures: with deduplication exactly the strings of 4 to 2^32 - 1 bytes, tag and all, are shared if recorded and recorded if not |
| Merger.Merger.SharesNames | Perl/Merger/srl_merger.c:1221-1242 | the same for class names |
| Merger.Merger.MergeShortBinary | Perl/Merger/srl_merger.c:977-1015 | a COPY of a recorded equal string is written if there is one and the length qualifies, else the string, which is then recorded; the translation goes on behind it |
| Merger.Merger.MergeBinaryUtf8 | Perl/Merger/srl_merger.c:928-975 | the same for the long strings |
| Merger.Merger.MergeStringish | Perl/Merger/srl_merger.c:1017-1065 | accepts exactly what may be a key, and goes on behind it |
| Merger.Merger.MergeLink | Perl/Merger/srl_merger.c:822-864 | a link becomes the same link to the image of its target; REFP and ALIAS raise the track flag there |
| Merger.Merger.MergeClass | Perl/Merger/srl_merger.c:1099-1145 | an OBJECTV naming a recorded equal class name is written if there is one and the length qualifies, else object tag and class name, which is then recorded |
| Merger.Merger.MergeObjectHead | Perl/Merger/srl_merger.c:1067-1166 | consumes the object tag and its class name and keeps the translation invariant; exactly when the class name is a COPY, a COPY is all that is written for both |
| MergerRuns.BorrowedRun | Perl/Merger/srl_merger.c:1067-1166 | an array of a string and of an object named by a COPY of it is merged, and the result does not mean the array that holds it |
| Merger.Merger.MergeArray | Perl/Merger/srl_merger.c:885-904 | array and elements are one item, translated to its end; well-formed ones succeed exactly when they fit below the limit, and the depth afterwards is what they leaked |
| Merger.Merger.MergeHash | Perl/Merger/srl_merger.c:906-926 | the same for a hash, keys first |
| Merger.Merger.MergePads | Perl/Merger/srl_merger.c:866-871 | padding is copied and changes nothing of the item behind it; a run of it takes one level that is not given back, and a flagged pad is never left |
| Merger.Merger.MergeValue | Perl/Merger/srl_merger.c:744-883 | the second pass consumes exactly one item of the grammar, keeps the translation invariant, and fails on a well-formed document only for depth: `TooDeep` exactly when at one of its tags the levels still open and those leaked before it reach the limit |
| Merger.Merger.Purge | Perl/Merger/srl_merger.c:1244-1259 | exactly the entries recorded before the cut remain; fails exactly when the newest arena is empty, and leaves the arenas the index leaves |
| Merger.Merger.Rollback | Perl/Merger/srl_merger.c:363-374 | the output is cut back to the last good end and both tables to what was recorded before it; ends in `Underrun` exactly when one of the tables cannot be purged |
| Merger.Merger.PrefixKept | Perl/Merger/srl_merger.c:363-389 | between operations the output starts with what was merged, up to track flags raised since |
| Merger.Merger.MergeDocument | Perl/Merger/srl_merger.c:381-389 | on success the document joins those before it, and they are unchanged up to track flags; on failure nothing merged changes; `NoMemory` exactly when the output could reach 2^64; a well-formed document is otherwise merged exactly when it is shallow |
| Merger.Merger.Append | Perl/Merger/srl_merger.c:355-390 | on success exactly this document is added behind the others; on failure none is; `Underrun` exactly when a rollback meets a table that cannot be purged; otherwise, below 2^64 bytes, a document with sound links succeeds exactly when it passes the first pass, is well-formed and is shallow |
| Merger.Merger.AppendAll | Perl/Merger/srl_merger.c:392-439 | adds the documents in order up to the first that fails: exactly those in front of the first that does not pass, is not well-formed or not shallow; `Underrun` exactly when the rollback at the start meets a table that cannot be purged |
| Merger.Merger.Finish | Perl/Merger/srl_merger.c:441-471 | the count is written behind the two tags in front and nothing else changes; the finished body is one well-formed item, the array of what the merged documents mean, in order, exactly when their class names are spelled out |
| Merger.Session | Perl/Merger/srl_merger.c:355-559 | a run of appends, some of which may fail, is broken off exactly at a rollback with a table that cannot be purged, which the first never is; otherwise the finished body means the array of the successful documents alone, exactly when their class names are spelled out; each operation merges exactly the documents in front of the first that does not pass, is not well-formed or not shallow |
| MergerRuns.ArenaRun | Perl/Merger/srl_merger.c:355-390 | a run of appends on well-formed, short documents, one of which fails, that ends in reading in front of an arena |
| MergerRuns.DoubleRun | Perl/Merger/srl_merger.c:786-794 | a literal document with a double is merged, and the body means the array of it with all its eight bytes |
| MergerRuns.LeakRun | Perl/Merger/srl_merger.c:757-838 | with a limit of three levels an array of one reference is merged and an array of two is refused |
| MergerRuns.EmptyRun | Perl/Merger/srl_merger.c:279-287 | when nothing was merged the body is REFN, ARRAY, a zero and four pads |
| Examples.LinkedTaken | Perl/Merger/srl_merger.c:822-864 | a document with REFP, ALIAS, COPY and OBJECTV is one that the results of the merger and the splitter speak of |
| MergerResult.FinishedBytes | Perl/Merger/srl_merger.c:441-471 | the count fits the five bytes of padding and reads back |
| MergerResult.EdgesKept | Perl/Merger/srl_merger.c:822-834 | a REFP or ALIAS names the image of its original target, which carries the track flag, or with deduplication an equal string |
| MergerResult.DocSpan | Perl/Merger/srl_merger.c:441-471 | each document is one item of the finished body, from its start to the next |
| MergerResult.LaidMeaning | Perl/Merger/srl_merger.c:441-471 | the laid-out body means the array of the documents' meanings, all clean |
| MergerResult.LaidChanged | Go/sereal/merge.go:205-212 | a body in which a string changed its form does not mean the array of what was merged |
| MergerResult.LaidCounts | Go/sereal/merge.go:205-212 | a well-formed body leaves no place open and reads no item too many, over all documents together |
| MergerState.CoreUndone | Perl/Merger/srl_merger.c:363-374 | cutting back output and tables leaves the state of the last good end, whatever the failed append had written |
| Chains.SplitBucket | Perl/Merger/strtable.h:319-337 | splitting a chain in place loses and duplicates no cell, and leaves each in the bucket of its hash |
| Chains.Grow | Perl/Merger/strtable.h:309-338 | doubling the buckets keeps every cell filed, and its data |
| Chains.Unlink | Perl/Merger/strtable.h:420-447 | exactly the one cell leaves its chain |
| StrTable.StrTable.Insert | Perl/Merger/strtable.h:251-305 | ok exactly when a recorded entry holds the same bytes, and then that entry; otherwise one new entry; the buckets are doubled exactly when another entry is in its bucket and there are now as many entries as buckets |
| StrTable.StrTable.Grow | Perl/Merger/strtable.h:309-338 | growth keeps the recorded entries and their order |
| StrTable.TrimmedBefore | Perl/Merger/strtable.h:384-489 | with rising offsets, dropping from the end is the same as removing every entry at or behind the cut |
| StrTable.PurgeAfter | Perl/Merger/strtable.h:384-489 | after a purge the next one works exactly when nothing or everything was left, or not a multiple of the size of an arena |
| StrTable.StrTable.PurgeRising | Perl/Merger/strtable.h:384-489 | with rising offsets the purge of the index is the merger's: same failure, same entries, same arenas |
| StrTable.StrTable.Purge | Perl/Merger/strtable.h:384-489 | removes across arenas exactly the newest entries at or behind the cut; fails exactly when the newest arena is empty, and says when it leaves it so |
| StrTable.PurgeTwice | Perl/Merger/strtable.h:384-489 | a run of inserts and two purges, the second of which fails |
| PTable.Table.Find | Perl/shared/ptable.h:111-121 | finds the entry of a key exactly when it is in the map |
| PTable.Table.Fetch | Perl/shared/ptable.h:123-128 | the value the map gives, or NULL |
| PTable.Table.Store | Perl/shared/ptable.h:165-186 | the map with the key updated; counts one item more only for a new key; the buckets are doubled exactly when another key is in its bucket and there are now as many items as buckets |
| PTable.Table.Grow | Perl/shared/ptable.h:132-161 | growth keeps the map |
| PTable.Table.Delete | Perl/shared/ptable.h:251-278 | the map without the key |
| PTable.Table.Clear | Perl/shared/ptable.h:191-217 | the empty map, and no items |
| PTable.Iterator.Start | Perl/shared/ptable.h:299-319 | stands at the first entry; the assertion holds exactly when no item is counted or some key is left |
| PTable.Iterator.Next | Perl/shared/ptable.h:329-336 | returns the entries one by one, then nothing |
| PTable.FlatMembers | Perl/shared/ptable.h:282-296 | bucket after bucket, every live entry comes exactly once |
| PTable.Walk | Perl/shared/ptable.h:299-336 | walking an unchanged table visits each key exactly once and stops |
| PTable.EmptiedTable | Perl/shared/ptable.h:251-319 | store, delete and iterate: the assertion fails |
| Splitting.WalkItems | Perl/Splitter/srl_splitter.c:456-556 | a chunk in which every tag owes what its original owed is well-formed and ends where the elements end |
| Splitting.AlikeResolve | Perl/Splitter/srl_splitter.c:707-756 | following links in a chunk ends at a rendering of what the input means there |
| Splitting.AlikeHead | Perl/Splitter/srl_splitter.c:598-936 | a rendering has the shape and the children of its original, with references expanded, objects named and strings deduplicated |
| Splitting.SplitMeaning | Perl/Splitter/srl_splitter.c:456-936 | an input tag and its rendering in a chunk mean the same at every depth |
| SplitterState.CopyWork | Perl/Splitter/srl_splitter.c:809-859 | expanding a COPY leaves less to do, though it jumps back |
| SplitterState.JumpStep | Perl/Splitter/srl_splitter.c:743-755 | jumping to a target and back leaves pending exactly the target and what was pending before |
| SplitterState.ObjectvStep | Perl/Splitter/srl_splitter.c:766-807 | an OBJECTV becomes its class name and its value, with less to do |
| Splitter.Splitter.Flush | Perl/Splitter/srl_splitter.c:1154-1169 | what the chunk lacked of the input is appended; the offset counter follows the length |
| Splitter.Splitter.CheckDuplicates | Perl/Splitter/srl_splitter.c:558-596 | a string that the chunk has already, in the same form, becomes a COPY of it unless it must be kept; any other is remembered at its offset in the chunk; the invariant holds |
| Splitter.Splitter.ReadRefp | Perl/Splitter/srl_splitter.c:707-756 | a reference to something in the chunk is written with its new offset, any other becomes a REFN and the machine goes to its target; the invariant holds and there is less to do |
| Splitter.Splitter.ReadObjectv | Perl/Splitter/srl_splitter.c:766-807 | an OBJECT tag is written and the machine goes to the class name; the invariant holds and there is less to do |
| Splitter.Splitter.ReadCopy | Perl/Splitter/srl_splitter.c:809-859 | nothing is written and the machine goes to the string, which inherits the track flag; the invariant holds and there is less to do |
| Splitter.Splitter.ReadAlias | Perl/Splitter/srl_splitter.c:861-913 | an ALIAS of something in the chunk is written with its new offset, otherwise the machine goes to the target |
| Splitter.Splitter.ReadOpen | Perl/Splitter/srl_splitter.c:693-764 | what a container owes is pushed |
| Splitter.Splitter.ReadTag | Perl/Splitter/srl_splitter.c:598-658 | any tag of the input: the invariant holds again and there is less to do |
| Splitter.Splitter.StepValue | Perl/Splitter/srl_splitter.c:478-519 | a value, its track flag entered or forced; one element fewer is owed exactly at the top level |
| Splitter.Splitter.Step | Perl/Splitter/srl_splitter.c:462-541 | every step of the machine keeps the invariant, lowers the measure of flags missing from the offset map, then work, and writes no more than what can still be written falls by |
| Splitter.Splitter.ParseChunk | Perl/Splitter/srl_splitter.c:456-556 | terminates; counts exactly the completed elements; stops exactly at the first end of an element at which the limit is reached, or at the end of the input; never gives up when what can still be written stays below 2^64 |
| Splitter.Splitter.CloseChunk | Perl/Splitter/srl_splitter.c:1023-1028 | the count is written over the larger one and reads back; nothing else changes |
| Splitter.Splitter.NextChunk | Perl/Splitter/srl_splitter.c:964-1041 | a chunk is one well-formed item, every link in it points to an earlier item of it, and its elements mean the next elements of the input; it reaches the size limit unless it is the last, and does not without its last element; counts add up; memory runs out only when `MostBytes` of the input reaches 2^64 |
| SplitterState.LessEnergy | Perl/Splitter/srl_splitter.c:456-556 | a step that comes closer to the end pays for what it writes, also when it expands a link |
| SplitterState.SmallEnough | Perl/Splitter/srl_splitter.c:456-556 | no chunk of a document of up to a megabyte could need 2^64 bytes |
| SplitterResult.RootMeaning | Perl/Splitter/srl_splitter.c:239-266 | the input means the array of the trees of its elements |
| SplitterResult.ChunkParse | Perl/Splitter/srl_splitter.c:964-1041 | a chunk is a referenced array of as many items as were counted, to its very end |
| SplitterResult.ChunkMeaning | Perl/Splitter/srl_splitter.c:964-1041 | the elements of a chunk mean the elements of the input |
| SplitterResult.ChunkLinks | Perl/Splitter/srl_splitter.c:707-913 | offsets written into a chunk point to earlier tags of the same chunk |
| SplitterResult.LastBegins | Perl/Splitter/srl_splitter.c:531-540 | of more than one element in a chunk the last begins less than the limit behind the count |
| Splitter.SplitDocument | Perl/Splitter/srl_splitter.c:239-1041 | the elements of all chunks, one after the other, mean the elements of the document; every chunk but the last reaches the size limit, and none does without its last element; the run succeeds whenever `MostBytes` of the document is below 2^64 |
| SplitterRuns.ThreeChunks | Perl/Splitter/srl_splitter.c:531-540 | with a limit of one byte an array of three numbers becomes three chunks |
| GoDecoder.Varintdecode | Go/sereal/decode.go:1233-1251 | agrees with the reference varint, as a signed number |
| GoDecoder.Decoder.Decode | Go/sereal/decode.go:265-463 | on arbitrary bytes: terminates, stays inside, restores copyDepth on every return, and returns what the reference decoder `ValueAt` does, of which the rows of GoMeaning speak |
| GoDecoder.Decoder.DecodeStringish | Go/sereal/decode.go:590-666 | the same for keys |
| GoDecoder.Decoder.DecodeBinary | Go/sereal/decode.go:572-587 | the bytes, or the error of a length that is negative or too large |
| GoDecoder.Decoder.DecodeArray | Go/sereal/decode.go:537-570 | the elements in order, or the first error |
| GoDecoder.Decoder.DecodeHash | Go/sereal/decode.go:500-535 | the pairs, later ones winning, or the first error |
| GoMeaning.DecodesItem | Go/sereal/decode.go:265-463 | a well-formed item without tags that are refused decodes to the value its tree denotes - same shape, as many elements, the same keys, strings and numbers - and ends where the item does |
| GoMeaning.DecodedExactly | Go/sereal/decode.go:265-463 | when each COPY leads to a string of a length it accepts, a well-formed item is decoded exactly if none of its tags is refused |
| GoMeaning.TakenItem | Go/sereal/decode.go:265-463 | an item that was decoded ends where it should and has no tag that is refused |
| GoMeaning.DecodesCopy | Go/sereal/decode.go:393-410 | on arbitrary bytes: the value of a COPY is that at its target, and the position is behind the COPY; a target ahead of it is refused |
| GoMeaning.NoNestedCopy | Go/sereal/decode.go:393-410 | a COPY inside what a COPY copies is refused |
| GoMeaning.DecodesRegexp | Go/sereal/decode.go:668-685 | the first string is the pattern, the second the modifiers |
| GoMeaning.NotDecoded | Go/sereal/decode.go:265-463 | which tags are always refused, and how |
| GoMeaning.NineDecoded | Go/sereal/decode.go:349-350 | a literal array of nine numbers decodes to those nine |
| GoSpec.ValueExtends | Go/sereal/decode.go:265-463 | a decoded value does not change when bytes are appended to the buffer |
| GoEncoder.AppendVarint | Go/sereal/encode.go:638-646 | appends the reference encoding |
| GoEncoder.NormalComes | Go/sereal/encode.go:185-427 | the value that comes back, said member by member: an unsigned number above 2^63 - 1 as such, any other as a signed one, everything else as it is |
| GoEncoder.EncodeInt | Go/sereal/encode.go:291-313 | which bytes are appended, in figures, for each of the three forms, and that they decode to the number |
| GoEncoder.EncodeDouble | Go/sereal/encode.go:320-323 | what is appended decodes to the same bits |
| GoEncoder.Encoder.EncodeString | Go/sereal/encode.go:348-361 | only appends, keeps the table consistent, and decodes to the string, through a COPY or not |
| GoEncoder.Encoder.EncodeBytes | Go/sereal/encode.go:363-382 | what is appended decodes to the bytes |
| GoEncoder.Encoder.EncodeArray | Go/sereal/encode.go:384-403 | what is appended decodes to the list |
| GoEncoder.Encoder.EncodeMap | Go/sereal/encode.go:405-427 | what is appended decodes to the map, in whatever order the keys come |
| GoEncoder.Encoder.Encode | Go/sereal/encode.go:185-239 | from any prefix with a consistent table: only appends, keeps the table consistent, and decodes at the old length to an equal value and the new length |
| GoCodec.RoundTrip | Go/sereal/encode.go:185-427 | decoding an encoded value gives back that very value if no unsigned number is in it, and one that comes of it, number by number and member by member, in any case; nothing is refused but a body of 2^63 bytes |
| GoMergeState.FrameNext | Go/sereal/merge.go:396-400 | a counter owes a key next exactly when it is a hash counter and even |
| GoMergeState.FrameHash | Go/sereal/merge.go:501-529 | the counter of a hash of fewer than 2^30 pairs owes keys and values in turn |
| GoMergeState.PushedTodo | Go/sereal/merge.go:411-582 | counting down, faking one up for padding, and pushing a frame leave on the stack exactly what the grammar still owes |
| GoMergeState.ReadingHere | Go/sereal/merge.go:386-400 | while something is owed the tag at hand is one of those asked for, and a key is due there exactly when it is owed first |
| GoMergeState.HeaderParse | Go/sereal/merge.go:596-619 | the items asked for under KeepFlat are what the document is made of |
| GoMergeState.HeaderIs | Go/sereal/merge.go:596-619 | in figures: which documents have an array on top, where its elements begin and how many there are; a well-formed document has a header exactly when there are two bytes to look at |
| GoMergeState.TakeableWhen | Go/sereal/merge.go:250-594 | a well-formed document can be taken exactly when its links are sound, each tag can be taken, and under KeepFlat there are two bytes to look at |
| GoMergeState.NotedPath | Go/sereal/merge.go:262-346 | what the first pass notes are places of tags |
| GoMergeState.TraceStep | Go/sereal/merge.go:382-589 | noted offsets are met in rising order, each once; exactly those in front of which nothing noted goes unasked for are found |
| GoMergeState.NoCopies | Go/sereal/merge.go:314-326 | a document without COPY is always traceable |
| GoMergeState.NoObjects | Go/sereal/merge.go:314-326 | a document without objects is traceable exactly when no COPY stands right behind the tag it names |
| GoForms.FlatMeaning | Go/sereal/merge.go:596-619 | what is asked for under KeepFlat of any well-formed document of two bytes or more are the elements of the array on top, behind 40 43 or as 64 to 79, or the document itself if there is none |
| GoForms.KeptAgree | Go/sereal/merge.go:442-477 | strings keep their forms exactly when those looked up in the same table agree in form wherever they agree in bytes |
| GoForms.BodyParses | Go/sereal/merge.go:354-594 | the finished body is one well-formed item exactly when every document is |
| GoForms.GivenNothing | Go/sereal/merge.go:464-472 | the tables have not grown exactly when nothing that was looked up was new |
| GoMerger.DueNext | Go/sereal/merge.go:396-400 | the test on the top counter says whether a key is due |
| GoMerger.Merger.AppendTagVarint | Go/sereal/merge.go:654-668 | appends the tag and the reference encoding |
| GoMerger.Merger.ReadString | Go/sereal/merge.go:625-652 | content and length of a string spelled out, unless it is the empty short one |
| GoMerger.Merger.MergeText | Go/sereal/merge.go:442-477 | with deduplication a COPY of an equal string in the table is written if there is one, else the string, which is then entered; without, the string; short strings of at most one byte are never deduplicated |
| GoMerger.Merger.MergeLink | Go/sereal/merge.go:479-499 | a COPY becomes a COPY of the image of its target; fails exactly when its target has not been found |
| GoMerger.Merger.MergeGroup | Go/sereal/merge.go:501-518 | array and hash push a frame for exactly their items |
| GoMerger.Merger.MergeObject | Go/sereal/merge.go:547-572 | an object and its class name become themselves or an OBJECTV, and one item is owed |
| GoMerger.Merger.PopEmpty | Go/sereal/merge.go:386-394 | dropping used-up frames changes nothing of what is owed |
| GoMerger.Merger.Step | Go/sereal/merge.go:378-589 | each round reads on in the grammar by one tag; exactly the strings due as keys are looked up, unless all are, and entered if they are new; it stops exactly at a COPY of something that has not been found |
| GoMerger.Merger.ExpectedElements | Go/sereal/merge.go:596-619 | how many items are asked for and where they begin, or which documents are refused |
| GoMerger.Merger.MergeItems | Go/sereal/merge.go:354-594 | stops exactly behind the items asked for, translated, or exactly at the first COPY of something that is not found, with what was looked up before it in the tables |
| GoMerger.Merger.BuildTrackTable | Go/sereal/merge.go:250-352 | notes exactly the offsets and flagged tags of the document, in rising order; succeeds exactly when no COPY stands right behind the tag it names |
| GoMerger.Merger.Append | Go/sereal/merge.go:151-202 | adds exactly the items asked for, or leaves the length and the bytes, track flags aside; a document that can be taken is merged exactly when it is traceable; after a failure the tables name only the output exactly when they have not changed, that is when nothing new had been looked up |
| GoMerger.Merger.Finish | Go/sereal/merge.go:205-212 | the count is written over the padding; the body means the array of what was merged exactly when all documents were well-formed and their strings agree in form; a second call changes nothing |
| GoMerger.MergeAll | Go/sereal/merge.go:98-248 | over a run of appends and a finish, with or without KeepFlat and DedupeStrings: the body means the array of what was asked for exactly when all documents are well-formed and the strings looked up agree in form; it is well-formed exactly when all documents are; the run succeeds exactly when all are traceable |
| GoRuns.KeyChangesForm | Go/sereal/merge.go:464-472 | two documents with one key in two forms: the result is well-formed and does not mean what was merged |
| GoRuns.EmptyDocument | Go/sereal/merge.go:378-594 | an empty body is accepted and counted, and the finished body is malformed |
| GoRuns.CopyTooClose | Go/sereal/merge.go:314-326 | a well-formed document with a COPY right behind its string is refused |
| GoRuns.ClassNameCopied | Go/sereal/merge.go:479-490 | a well-formed document with a COPY of a class name is refused, and a string of it stays in the table, behind the output |
| GoRuns.StaleTable | Go/sereal/merge.go:195-199 | a string appended after such a failure becomes a COPY of a place that is not there, and the finished body does not mean it |
| GoRuns.CopiedRun | Go/sereal/merge.go:151-202 | a document with a COPY of a string is merged, and the result means it |
| GoRuns.FlatRun | Go/sereal/merge.go:596-619 | an ARRAYREF, an array behind REFN and a number are merged under KeepFlat, and the body means the array of their elements and the number |
| GoRuns.EmptyRun | Go/sereal/merge.go:128-143 | when nothing was merged the body is REFN, ARRAY, a zero and four pads |

## Left out

- Document headers, compression, and protocol version 1 offsets: input bodies are raw and of version 2 or later.
- SortKeys.SortHashKeys: fewer than 2^32 keys, as the sort counts in 32 bits; the order by Perl's own comparison (sv_cmp) is left out.
- Perl merger: tops other than ARRAY (HASH, SCALAR); COPY of containers, REGEXP and EXTEND are modelled, but nothing is promised of documents that hold them, nor of those whose links name a COPY that is a class name (`Sound`).
- Merger.Merger.BuildTrackTable: the stack is sorted by a 32-bit count, so the strict order is promised for documents of fewer than 2^33 bytes, which cannot hold 2^32 links.
- Merger.Merger.Append: a document after which offsets could reach 2^64 ends in `NoMemory`; the source would run out of memory long before.
- Merger.Merger.MergeValue: of a malformed document nothing is said but that it fails, `TooDeep` only if a tag is (`Depth.InDepth`), and otherwise with one of the errors of the source.
- Merger.Merger.Find: the hash function is any function, and the index is the plain list of entries here, with the arenas counted; `StrTable` is the table itself, and `StrTable.StrTable.PurgeRising` says that its purge is the merger's.
- Merger.Merger.Finish: returns the body instead of patching it in the buffer; the header and the compression behind it are not part of this model.
- Reads past the end of the input that the source does not check are the outcomes `Overrun` (Perl) and `PastEnd`; what such a read returns is not modelled.
- StrTable.StrTable.Insert: a bucket is the remainder of the hash by the number of buckets, which is a power of two; the source masks. Memory of arenas is a sequence of cells; addresses are not modelled.
- Chains.SplitBucket: cells and bucket heads are sequences whose links are rewritten, passed in and out; the tables assign them back to their fields.
- PTable.Table.Delete: freed entries stay in the sequence of cells, out of every chain; reuse of their memory is not modelled.
- PTable.Walk: the table is not changed while it is walked; deleting during an iteration and the automatic freeing of iterators are left out.
- Splitter: input is a document without PAD, EXTEND and REGEXP, COPY and OBJECTV lead to strings, targets of REFP and ALIAS carry the track flag, ALIAS tags do not, as the source says they cannot (`Splittable`); the source also reads a HASHREF or a short string in front as if it were an ARRAYREF.
- Splitter.SplitDocument: a chunk that would reach 2^64 bytes ends the run with `ok` false; that none does is promised when the bound `MostBytes` is below 2^64, which it is for any document of up to a megabyte (`SplitterState.SmallEnough`), not exactly when none does.
- Splitter: the entry for an absolute jump is one entry of the stack here and two words there; the user header with the count in it and compressed chunks are left out.
- GoDecoder.Decoder.Decode: REFP, ALIAS and objects give an error of their own; decoding into typed targets and PerlCompat are left out; buffers are shorter than 2^63 bytes.
- GoMeaning.DecodedExactly: a COPY may lead to any item; what comes of that is said by `GoMeaning.DecodesCopy`, while in `Wire.Meaning` a COPY stands for strings only.
- GoEncoder.Encoder.Encode: the static-type path only; strings, arrays and maps have at most 2^31 - 1 members; structs, pointers, reflection and JSON numbers are left out. Floats are their bit patterns.
- GoCodec.RoundTrip: an unsigned number below 2^63 comes back as a signed one, as the decoder has it (`Comes`); a body too long for the decoder is not decoded.
- GoMerger.Merger.Append: promises of meaning are for documents without REFP, ALIAS, OBJECTV, REGEXP and EXTEND, with hashes of fewer than 2^30 pairs and class names spelled out, but not as an empty short string (`Takeable`); that a document is merged exactly when it is traceable is promised of those that are made of tags to their last byte.
- GoMerger.Merger.MergeLink: REFP, ALIAS and OBJECTV take the same branch and are modelled there, but documents that hold them are not `Takeable`.
- GoMerger.Merger.Finish: a count of up to 2^31 - 1 items; an ARRAY on top and compression are left out.
- GoRuns.StaleTable: after a failure that left something in the tables, what later documents become is shown on this run only.
- GoMerger.Merger.MergeItems: a slice past the length of the document but within its capacity is a `Panic` here.
- srl_dump_sv, FREEZE and THAW, blessing, the Perl and Python APIs, the JavaScript and Python decoders and Perl/Path: foreign run-time behaviour or small parsing.
