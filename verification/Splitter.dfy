/** The Perl splitter: one array document is cut into chunks that stand alone.  A control stack says what
    to read next; COPY is replaced by what it copies, a link to something outside the chunk by the thing
    itself, and repeated strings become COPY again. */
module Splitter {
  import opened Varint
  import opened VarintIO
  import opened Wire
  import opened Mapping
  import opened Splitting
  import opened SplitterState
  import opened SplitterResult

  datatype Chunked = Chunk(body: seq<byte>, count: nat) | Done | NoMemory

  class Splitter {
    const input: seq<byte>        // the body; byte 0 is the byte before it
    const sizeLimit: nat

    var pos: nat
    var iterStart: nat            // from here to pos the input belongs to the chunk, but is not in it yet
    var chunk: seq<byte>          // the body of the chunk, likewise with a byte before it
    var chunkOffset: nat          // the offset behind the last byte of the chunk
    var chunkSize: nat
    var nbElts: nat
    var inputElts: nat
    var stack: seq<Status>
    var deepness: int
    var dontCheck: bool
    var tagTracked: bool
    var offsets: map<nat, nat>    // input offset -> chunk offset
    var strings: map<seq<byte>, nat>
    var utf8s: map<seq<byte>, nat>

    ghost var lo: nat             // where the elements of the chunk begin
    ghost var owed: map<nat, seq<nat>>
    ghost var src: map<nat, nat>
    ghost var rest: nat           // elements not begun yet
    ghost var front: seq<byte>    // what stands before them
    ghost var first: seq<nat>     // where the elements were that had not been begun at the start of the chunk
    ghost var mark: nat           // where the last element begun begins in the chunk
    ghost var left: nat           // elements that had not been begun then

    /** The chunk, with what belongs to it but is still in the input only. */
    ghost function Body(): seq<byte>
      requires iterStart <= pos <= |input|
      reads `iterStart, `pos, `chunk
    {
      chunk + input[iterStart..pos]
    }

    /** No position of the chunk before n owes as little as the elements not begun yet. */
    ghost predicate Above(n: nat)
      reads `owed, `rest
    {
      forall o :: o in owed && o < n ==> |owed[o]| > rest
    }

    /** What holds between the steps of the machine, but for the place where the last element began. */
    ghost predicate Core(force: bool, dont: bool)
      reads `pos, `iterStart, `chunk, `chunkOffset, `chunkSize, `stack, `deepness, `offsets, `strings, `utf8s
      reads `lo, `owed, `src, `rest, `first, `front
    {
      && Fit(input) && iterStart <= pos <= |input| && chunkOffset == |chunk| && 0 < lo
      && OnPath(input, pos) && JumpsOnPath(input, stack)
      && Stream(input, Body(), lo, owed, src) && Above(|Body()|) && owed[lo] == first
      && |front| == lo && front <= Body()
      && Pending(input, pos, stack).Some? && SameAll(input, owed[|Body()|], Pending(input, pos, stack).value)
      && Shape(stack, rest, deepness) && Mode(stack, force, dont)
      && (Held(stack, force, dont) ==> TextAt(input, pos))
      && OffsetsOk(input, Body(), src, offsets, if Held(stack, force, dont) then Some(pos) else None)
      && StringsOk(Body(), src, strings, false) && StringsOk(Body(), src, utf8s, true)
      && chunkSize + lo == |chunk|
    }

    ghost predicate Inv(force: bool, dont: bool)
      reads `pos, `iterStart, `chunk, `chunkOffset, `chunkSize, `stack, `deepness, `offsets, `strings, `utf8s
      reads `lo, `owed, `src, `rest, `first, `front, `mark, `left
    {
      Core(force, dont) && Sealed(Body(), lo, owed, mark, left)
    }

    /** The tag at i is being read; `was` is the chunk before it, `p` what is pending behind its item. */
    ghost predicate Before(i: nat, was: seq<byte>, p: seq<nat>, strings0: map<seq<byte>, nat>, utf8s0: map<seq<byte>, nat>)
      reads `owed, `src, `lo, `rest, `first, `front, `offsets, `tagTracked, `mark, `left
    {
      && Fit(input) && ItemAt(input, i) && Scan(input, i).Some? && 0 < lo && |was| < WORD
      && Stream(input, was, lo, owed, src) && owed[lo] == first && |front| == lo && front <= was && SameAll(input, owed[|was|], [i] + p)
      && rest <= |p| && Above(|was|) && Sealed(was, lo, owed, mark, left)
      && OffsetsOk(input, was, src, offsets, if tagTracked then Some(i) else None) && (input[i] >= HIGH ==> i in offsets)
      && StringsOk(was, src, strings0, false) && StringsOk(was, src, utf8s0, true)
    }

    /** How the chunk lies when the tag at i has been read: the tag is still in the input, or it has been
        written already, with the track flag. */
    ghost predicate Layout(i: nat, was: seq<byte>)
      reads `iterStart, `chunk, `chunkOffset, `chunkSize, `lo, `tagTracked, `dontCheck
    {
      && chunkOffset == |chunk| && chunkSize + lo == |chunk| && i < |input|
      && if iterStart <= i then chunk + input[iterStart..i] == was && (tagTracked <==> input[i] >= HIGH) && !dontCheck
         else iterStart == i + 1 && |chunk| == |was| + 1 && chunk[..|was|] == was && tagTracked && dontCheck
              && chunk[|was|] >= HIGH && chunk[|was|] % HIGH == input[i] % HIGH && TextAt(input, i)
    }

    /** The stack below the item at i, whose end is followed by what p lists. */
    ghost predicate Around(i: nat, p: seq<nat>)
      reads `stack, `rest, `deepness
    {
      && Parse(input, i, [Item]).Some? && Pending(input, Parse(input, i, [Item]).value, stack) == Some(p)
      && Shape(stack, rest, deepness) && Plain(stack) && JumpsOnPath(input, stack)
    }

    ghost predicate Mid(i: nat, was: seq<byte>, p: seq<nat>)
      reads this
    {
      Before(i, was, p, strings, utf8s) && Layout(i, was) && Around(i, p)
    }

    // ----- the ghost side of a step -----

    /** The tag u has been written for the item i. */
    ghost method Emit(i: nat, was: seq<byte>, p: seq<nat>, u: Token,
                      strings0: map<seq<byte>, nat>, utf8s0: map<seq<byte>, nat>)
      requires Before(i, was, p, strings0, utf8s0) && iterStart <= pos <= |input|
      requires chunkOffset == |chunk| && chunkSize + lo == |chunk|
      requires |was| < |Body()| && Body()[..|was|] == was && Scan(Body(), |was|) == Some((u, |Body()|))
      requires Renders(input, i, Body(), u, |was|, src) && (tagTracked ==> Body()[|was|] >= HIGH)
      requires OnPath(input, pos) && JumpsOnPath(input, stack) && Shape(stack, rest, deepness) && Plain(stack)
      requires Pending(input, pos, stack) == Some(Owes(input, i, u) + p)
      requires strings == strings0 || (u.Text? && !u.utf8 && strings == strings0[u.content := |was|])
      requires utf8s == utf8s0 || (u.Text? && u.utf8 && utf8s == utf8s0[u.content := |was|])
      modifies `owed, `src
      ensures Inv(false, false)
    {
      hide Sealed, Scan, Stream, Renders, Path, Resolve, Parse, TextAt, Owes, Fit, Same, SameAll;
      hide OffsetsOk, StringsOk, OnPath, JumpsOnPath, Shape, Held, Mode, Pending, ItemAt, Plain;
      var out, ks := Body(), Owes(input, i, u);
      NoSrcAtEnd(input, was, lo, owed, src);
      SameHead(input, owed[|was|], i, p);
      StreamGrows(input, was, out, lo, owed, src, i, u);
      SealedGrows(input, was, out, lo, owed, src, mark, left, ks + owed[|was|][1..]);
      OwesItems(input, i, out, u, |was|, src, owed[|was|], p);
      OffsetsKept(input, was, out, src, src[|was| := i], offsets, if tagTracked then Some(i) else None, i);
      StringsGrow(input, was, out, lo, owed, src, i, strings0, strings, false, u);
      StringsGrow(input, was, out, lo, owed, src, i, utf8s0, utf8s, true, u);
      owed, src := owed[|out| := ks + owed[|was|][1..]], src[|was| := i];
      PlainNotHeld(stack);
    }

    /** The tag at i has been read; s0 is the stack below it. */
    ghost predicate Progress(i: nat, s0: seq<Status>)
      reads `offsets, `pos, `stack
    {
      Less(input, offsets, i, s0 + [Status.Value], offsets, pos, stack, Room(input, i))
    }

    /** No more has been written for it than what was set aside; n bytes stood before it. */
    ghost predicate Added(i: nat, n: nat)
      reads `pos, `iterStart, `chunk
    {
      iterStart <= pos <= |input| && BodySize() <= n + Room(input, i)
    }

    ghost function BodySize(): int
      reads `chunk, `pos, `iterStart
    {
      |chunk| + pos - iterStart
    }

    /** The tag as it is, a tag of one byte, a tag with an offset, or nothing. */
    lemma AddedHere(i: nat, was: seq<byte>, v: nat)
      requires iterStart <= pos <= |input| && Scan(input, i).Some? && v < WORD
      requires || BodySize() == |was| + (Scan(input, i).value.1 - i) || BodySize() <= |was| + 1
               || BodySize() == |was| + 1 + |Write(v)|
      ensures Added(i, |was|)
    {
      hide Scan, Write;
      WriteLength(v, MAX_BYTES);
    }

    lemma MidAt(i: nat, was: seq<byte>, p: seq<nat>)
      requires Mid(i, was, p)
      ensures Before(i, was, p, strings, utf8s) && Layout(i, was) && Around(i, p)
      ensures Fit(input) && ItemAt(input, i) && Scan(input, i).Some? && i < |input| && Scan(input, i).value.1 <= |input|
      ensures input[i] >= HIGH ==> i in offsets
      ensures dontCheck ==> TextAt(input, i)
    {
    }

    // ----- writing -----

    method Cat(s: seq<byte>)
      modifies `chunk, `chunkOffset, `chunkSize
      ensures chunk == old(chunk) + s && chunkOffset == old(chunkOffset) + |s| && chunkSize == old(chunkSize) + |s|
    {
      chunk := chunk + s;
      chunkOffset := chunkOffset + |s|;
      chunkSize := chunkSize + |s|;
    }

    /** Moves the input up to `end` into the chunk, and continues at `next`. */
    method Flush(end: nat, next: nat) returns (did: bool)
      requires end <= |input|
      modifies `chunk, `chunkOffset, `chunkSize, `iterStart
      ensures iterStart == next && did == (end > old(iterStart))
      ensures chunk == old(chunk) + (if did then input[old(iterStart)..end] else [])
      ensures chunkOffset - old(chunkOffset) == chunkSize - old(chunkSize) == |chunk| - |old(chunk)|
    {
      did := end > iterStart;
      if did {
        Cat(input[iterStart..end]);
      }
      iterStart := next;
    }

    /** A flush in front of the tag at i leaves exactly what was there before the tag. */
    method FlushBefore(next: nat, ghost i: nat, ghost was: seq<byte>, at: nat)
      requires Layout(i, was) && iterStart <= i == at < |input|
      modifies `chunk, `chunkOffset, `chunkSize, `iterStart
      ensures chunk == was && iterStart == next && chunkOffset == |chunk| && chunkSize + lo == |chunk|
    {
      var did := Flush(at, next);
    }

    method PutNumber(h: byte, v: nat)
      modifies `chunk, `chunkOffset, `chunkSize
      ensures chunk == old(chunk) + [h] + Write(v)
      ensures chunkOffset - old(chunkOffset) == chunkSize - old(chunkSize) == |chunk| - |old(chunk)|
    {
      Cat([h]);
      var s := SetVarint(v);
      Cat(s);
    }

    /** The varint of v. */
    method SetVarint(v: nat) returns (s: seq<byte>)
      ensures s == Write(v)
    {
      var n: nat := v;
      s := [];
      while n >= HIGH
        invariant s + Write(n) == Write(v)
      {
        s := s + [n % HIGH + HIGH];
        n := n / HIGH;
      }
      s := s + [n];
    }

    function WithFlag(tag: byte): (h: byte)
      requires tag < HIGH
      reads `tagTracked
      ensures h % HIGH == tag && (h >= HIGH <==> tagTracked)
    {
      if tagTracked then tag + HIGH else tag
    }

    // ----- reading -----

    /** Reads a varint, trusting it to end. */
    method ReadVarint() returns (n: nat)
      requires Read(input, pos).Some?
      modifies `pos
      ensures Read(input, old(pos)) == Some((n, pos))
    {
      hide Read, Prefix, Continued, OrAbove, Runaway, Scaled;
      var result, lshift := 0, 0;
      ghost var k, p := 0, pos;
      NoneBehind(p);
      NoDigits(input, p);
      while input[pos] >= HIGH
        invariant 0 <= k < MAX_BYTES && pos == p + k < |input| && lshift == 7 * k
        invariant Continued(input, p, k) && result == Prefix(input, p, k)
        decreases |input| - pos
      {
        PrefixNext(input, p, k);
        if k + 1 == MAX_BYTES || pos + 1 == |input| {
          ReadFails(input, p, k + 1);
        }
        OrNext(input, p, k);
        result := OrAbove(result, lshift / 7, input[pos] - HIGH);
        pos, lshift, k := pos + 1, lshift + 7, k + 1;
      }
      ReadEnds(input, p, k);
      n := OrAbove(result, lshift / 7, input[pos]);
      pos := pos + 1;
    }

    lemma NoneBehind(p: nat)
      ensures Read(input, p).Some? ==> p < |input|
    {
    }

    /** What the chunk holds once everything up to the end of the tag at i belongs to it. */
    lemma Raw(i: nat, was: seq<byte>) returns (h: byte)
      requires Layout(i, was) && i < pos <= |input| && iterStart <= i + 1
      ensures Body() == was + [h] + input[i + 1..pos] && h % HIGH == input[i] % HIGH && (h >= HIGH <==> tagTracked)
    {
      if iterStart <= i {
        h := input[i];
        assert input[iterStart..pos] == input[iterStart..i] + [input[i]] + input[i + 1..pos];
      } else {
        h := chunk[|was|];
        assert chunk == was + [h];
      }
    }

    /** The tag at i goes into the chunk as it is. */
    ghost method EmitSame(i: nat, was: seq<byte>, p: seq<nat>, strings0: map<seq<byte>, nat>, utf8s0: map<seq<byte>, nat>)
      requires Before(i, was, p, strings0, utf8s0) && Layout(i, was) && Scan(input, i).value.1 == pos
      requires var t := Scan(input, i).value.0;
        && (t.Leaf? || t.Num? || t.Text? || t.Open?)
        && (strings == strings0 || (t.Text? && !t.utf8 && strings == strings0[t.content := |was|]))
        && (utf8s == utf8s0 || (t.Text? && t.utf8 && utf8s == utf8s0[t.content := |was|]))
        && Pending(input, pos, stack) == Some(Owes(input, i, t) + p)
      requires OnPath(input, pos) && JumpsOnPath(input, stack) && Shape(stack, rest, deepness) && Plain(stack)
      modifies `owed, `src
      ensures Inv(false, false)
    {
      hide Scan, Stream, SameAll, OffsetsOk, StringsOk, Pending, JumpsOnPath, Shape, Plain, Inv, OnPath, Path, ItemAt, Owes, TextAt, Fit;
      var h := Raw(i, was);
      var t := Scan(input, i).value.0;
      RawScan(input, i, was, Body(), h);
      SameRendering(input, i, Body(), |was|, src);
      Emit(i, was, p, t, strings0, utf8s0);
    }

    /** Numbers, floats and constants. */
    method ReadScalar(tag: byte, ghost i: nat, ghost was: seq<byte>, ghost p: seq<nat>)
      requires Mid(i, was, p) && pos == i + 1 && tag == input[i] % HIGH && IsScalar(tag)
      modifies `pos, `owed, `src
      ensures Inv(false, false) && Progress(i, stack) && Added(i, |was|)
    {
      hide Scan, Inv, Before, Layout, Mid, Read, Less, Pending, Shape, ItemAt, JumpsOnPath, Plain, Fit, OnPath, Renders, Owes;
      MidAt(i, was, p);
      ScalarCase(input, i);
      SameRendering(input, i, was, |was|, src);
      LeafStep(input, i, stack, p, offsets);
      if tag == VARINT || tag == ZIGZAG {
        var n := ReadVarint();
      } else if tag == FLOAT {
        pos := pos + 4;
      } else if tag == DOUBLE {
        pos := pos + 8;
      } else if tag == LONG_DOUBLE {
        pos := pos + 16;
      }
      EmitSame(i, was, p, strings, utf8s);
    }

    method Push(e: Status)
      modifies `stack
      ensures stack == old(stack) + [e]
    {
      stack := stack + [e];
    }

    method PushValues(n: nat)
      modifies `stack
      ensures stack == old(stack) + Values(n)
    {
      var left := n;
      while left > 0
        invariant 0 <= left <= n && stack == old(stack) + Values(n - left)
      {
        ghost var was := stack;
        Push(Status.Value);
        assert Values(n - left + 1) == Values(n - left) + [Status.Value];
        left := left - 1;
      }
    }

    /** References, containers and objects: the children follow. */
    /** How many items follow the tag at i. */
    method ReadLength(tag: byte, ghost i: nat) returns (len: nat)
      requires i < |input| && pos == i + 1 && tag == input[i] % HIGH && Scan(input, i).Some?
      requires tag == REFN || tag == WEAKEN || tag == OBJECT || tag == OBJECT_FREEZE || tag == HASH || tag == ARRAY
               || ARRAYREF <= tag < SHORT_BINARY
      modifies `pos
      ensures len == |Wants(Scan(input, i).value.0)| && pos == Scan(input, i).value.1
    {
      hide Read, Wants;
      OpenCase(input, i);
      WantsCount(Scan(input, i).value.0);
      hide Scan;
      len := 1;
      if tag == OBJECT || tag == OBJECT_FREEZE {
        len := 2;
      } else if tag == HASH {
        len := ReadVarint();
        len := 2 * len;
      } else if tag == ARRAY {
        len := ReadVarint();
      } else if tag >= HASHREF {
        len := 2 * (tag - HASHREF);
      } else if tag >= ARRAYREF {
        len := tag - ARRAYREF;
      }
    }

    method ReadOpen(tag: byte, ghost i: nat, ghost was: seq<byte>, ghost p: seq<nat>)
      requires Mid(i, was, p) && pos == i + 1 && tag == input[i] % HIGH
      requires tag == REFN || tag == WEAKEN || tag == OBJECT || tag == OBJECT_FREEZE || tag == HASH || tag == ARRAY
               || ARRAYREF <= tag < SHORT_BINARY
      modifies `pos, `stack, `deepness, `owed, `src
      ensures Inv(false, false) && Progress(i, old(stack)) && Added(i, |was|)
    {
      hide Sealed, Scan, Inv, Before, Layout, Mid, Read, Less, Pending, Shape, ItemAt, JumpsOnPath, Plain, Fit, OnPath, Renders, Owes, Wants;
      MidAt(i, was, p);
      OpenCase(input, i);
      WantsCount(Scan(input, i).value.0);
      SameRendering(input, i, was, |was|, src);
      OpenStep(input, i, stack, p, rest, deepness, offsets);
      var len := ReadLength(tag, i);
      deepness := deepness + 1;
      Push(DeepnessUp);
      PushValues(len);
      EmitSame(i, was, p, strings, utf8s);
    }

    // ----- strings -----

    /** The string whose tag is at `start` and whose `len` bytes stand at pos becomes a COPY if the chunk has
        it already; otherwise it is remembered. */
    method CheckDuplicates(start: nat, len: nat, utf8: bool, ghost was: seq<byte>, ghost p: seq<nat>)
      requires Mid(start, was, p) && start < pos && pos + len <= |input|
      requires Scan(input, start) == Some((Token.Text(utf8, input[pos..pos + len]), pos + len))
      modifies `pos, `iterStart, `chunk, `chunkOffset, `chunkSize, `strings, `utf8s, `owed, `src
      ensures Inv(false, false) && Progress(start, stack) && Added(start, |was|)
      ensures pos == old(pos) + len
      ensures var s, table := input[old(pos)..pos], if utf8 then old(utf8s) else old(strings);
              if !dontCheck && s in table then chunk == was + [WithFlag(COPY)] + Write(table[s]) else chunk == old(chunk)
      ensures var s := input[old(pos)..pos];
              && strings == (if dontCheck || utf8 || s in old(strings) then old(strings) else old(strings)[s := |was|])
              && utf8s == (if dontCheck || !utf8 || s in old(utf8s) then old(utf8s) else old(utf8s)[s := |was|])
    {
      hide Sealed, Scan, Inv, Before, Layout, Around, Progress;
      MidAt(start, was, p);
      var s := input[pos..pos + len];
      var table := if utf8 then utf8s else strings;
      if dontCheck {
        KeepString(start, len, utf8, was, p, s);
      } else if s in table {
        FoundString(start, was, p, table, s, utf8);
        ReuseString(start, len, utf8, was, p, s, table[s]);
      } else {
        RememberString(start, len, utf8, was, p, s);
      }
    }

    method KeepString(start: nat, len: nat, utf8: bool, ghost was: seq<byte>, ghost p: seq<nat>, ghost s: seq<byte>)
      requires Mid(start, was, p) && start < pos && pos + len <= |input|
      requires Scan(input, start) == Some((Token.Text(utf8, s), pos + len))
      modifies `pos, `owed, `src
      ensures Inv(false, false) && Progress(start, stack) && Added(start, |was|)
      ensures pos == old(pos) + len
    {
      hide Scan, Inv, Less, Pending, Shape, ItemAt, JumpsOnPath, Plain, Fit, OnPath, Renders, Owes, Stream, SameAll, OffsetsOk, StringsOk;
      MidAt(start, was, p);
      SameRendering(input, start, was, |was|, src);
      LeafStep(input, start, stack, p, offsets);
      pos := pos + len;
      EmitSame(start, was, p, strings, utf8s);
    }

    method ReuseString(start: nat, len: nat, utf8: bool, ghost was: seq<byte>, ghost p: seq<nat>, ghost s: seq<byte>, v: nat)
      requires Mid(start, was, p) && start < pos && pos + len <= |input| && !dontCheck
      requires Scan(input, start) == Some((Token.Text(utf8, s), pos + len))
      requires 0 < v < |was| < WORD && v in src && Scan(was, v).Some? && Scan(was, v).value.0 == Token.Text(utf8, s)
      modifies `pos, `iterStart, `chunk, `chunkOffset, `chunkSize, `owed, `src
      ensures Inv(false, false) && Progress(start, stack) && Added(start, |was|)
      ensures pos == old(pos) + len && chunk == was + [WithFlag(COPY)] + Write(v)
    {
      hide Sealed, Scan, Inv, Before, Mid, Read, Wants, Less, Pending, Shape, ItemAt, JumpsOnPath, Plain, Fit, OnPath, Renders, Owes, Stream, SameAll, OffsetsOk, StringsOk;
      MidAt(start, was, p);
      SameRendering(input, start, was, |was|, src);
      LeafStep(input, start, stack, p, offsets);
      FlushBefore(pos + len, start, was, start);
      var h := WithFlag(COPY);
      PutNumber(h, v);
      pos := pos + len;
      EmitCopy(start, was, p, h, v, s, utf8);
      AddedHere(start, was, v);
    }

    method RememberString(start: nat, len: nat, utf8: bool, ghost was: seq<byte>, ghost p: seq<nat>, s: seq<byte>)
      requires Mid(start, was, p) && start < pos && pos + len <= |input| && !dontCheck
      requires Scan(input, start) == Some((Token.Text(utf8, s), pos + len))
      modifies `pos, `strings, `utf8s, `owed, `src
      ensures Inv(false, false) && Progress(start, stack) && Added(start, |was|)
      ensures pos == old(pos) + len
      ensures strings == (if utf8 then old(strings) else old(strings)[s := |was|])
      ensures utf8s == (if utf8 then old(utf8s)[s := |was|] else old(utf8s))
    {
      hide Sealed, Scan, Inv, Less, Pending, Shape, ItemAt, JumpsOnPath, Plain, Fit, OnPath, Renders, Owes, Stream, SameAll, OffsetsOk, StringsOk;
      MidAt(start, was, p);
      SameRendering(input, start, was, |was|, src);
      LeafStep(input, start, stack, p, offsets);
      var offset := chunkOffset + (start - iterStart);
      assert offset == |was|;
      ghost var strings0, utf8s0 := strings, utf8s;
      if utf8 {
        utf8s := utf8s[s := offset];
      } else {
        strings := strings[s := offset];
      }
      pos := pos + len;
      EmitSame(start, was, p, strings0, utf8s0);
    }

    /** A string found in a table stands in the chunk. */
    lemma FoundString(i: nat, was: seq<byte>, p: seq<nat>, table: map<seq<byte>, nat>, s: seq<byte>, utf8: bool)
      requires Mid(i, was, p) && table == (if utf8 then utf8s else strings) && s in table
      ensures 0 < table[s] < |was| < WORD && table[s] in src && Scan(was, table[s]).Some?
      ensures Scan(was, table[s]).value.0 == Token.Text(utf8, s)
    {
    }

    /** A COPY of the string at v goes into the chunk instead of the string at i. */
    ghost method EmitCopy(i: nat, was: seq<byte>, p: seq<nat>, h: byte, v: nat, s: seq<byte>, utf8: bool)
      requires Before(i, was, p, strings, utf8s) && iterStart == pos <= |input|
      requires chunk == was + [h] + Write(v) && chunkOffset == |chunk| && chunkSize + lo == |chunk|
      requires h % HIGH == COPY && (h >= HIGH <==> tagTracked)
      requires Scan(input, i).value.0 == Token.Text(utf8, s) && 0 < v < |was| && v in src
      requires Scan(was, v).Some? && Scan(was, v).value.0 == Token.Text(utf8, s)
      requires Pending(input, pos, stack) == Some([] + p)
      requires OnPath(input, pos) && JumpsOnPath(input, stack) && Shape(stack, rest, deepness) && Plain(stack)
      modifies `owed, `src
      ensures Inv(false, false)
    {
      hide Scan, SameAll, OffsetsOk, StringsOk, Pending, JumpsOnPath, Shape, Plain, Inv, OnPath, Path, ItemAt, Fit, Write, Stream;
      var out := Body();
      assert out == was + [h] + Write(v);
      NumberScan(was, out, h, COPY, v);
      KeptTag(input, was, out, lo, owed, src, v) by {
        SameFront(was, out);
      }
      Emit(i, was, p, Copy(v), strings, utf8s);
    }

    lemma SameFront(was: seq<byte>, out: seq<byte>)
      requires |was| <= |out| && out[..|was|] == was
      ensures forall j :: 0 <= j < |was| ==> out[j] == was[j]
    {
      forall j | 0 <= j < |was|
        ensures out[j] == was[j]
      {
        assert out[j] == out[..|was|][j];
      }
    }

    /** A string with its length in front. */
    method ReadString(utf8: bool, ghost i: nat, ghost was: seq<byte>, ghost p: seq<nat>)
      requires Mid(i, was, p) && pos == i + 1 && input[i] % HIGH == (if utf8 then STR_UTF8 else BINARY)
      modifies `pos, `iterStart, `chunk, `chunkOffset, `chunkSize, `strings, `utf8s, `owed, `src
      ensures Inv(false, false) && Progress(i, stack) && Added(i, |was|)
    {
      hide Scan, Inv, Before, Layout, Around, Read, Progress;
      MidAt(i, was, p);
      TextCase(input, i);
      var start := pos - 1;
      var len := ReadVarint();
      CheckDuplicates(start, len, utf8, was, p);
    }

    // ----- links -----

    /** The reader stands at y, to which the link at i leads, and nothing has been written for the link. */
    lemma Expanded(i: nat, was: seq<byte>, p: seq<nat>, y: nat, held: bool)
      requires Before(i, was, p, strings, utf8s) && iterStart == pos == y <= |input| && chunk == was
      requires chunkOffset == |chunk| && chunkSize + lo == |chunk|
      requires Pending(input, y, stack) == Some([y] + p) && OnPath(input, y) && JumpsOnPath(input, stack)
      requires Shape(stack, rest, deepness)
      requires if held then Held(stack, false, false) && TextAt(input, y) else Plain(stack)
      requires Resolve(input, y) == Resolve(input, i) && (KeyLike(input, i) ==> KeyLike(input, y))
      requires held == tagTracked
      ensures Inv(false, false)
    {
      hide Sealed, Scan, Stream, Pending, JumpsOnPath, Shape, OnPath, Fit, ItemAt, StringsOk, SameAll, Resolve, TextAt, Held, Plain;
      assert Body() == was;
      NoSrcAtEnd(input, was, lo, owed, src);
      SameReplace(input, owed[|was|], i, y, p);
      if !held {
        PlainNotHeld(stack);
      } else {
        assert Mode(stack, false, false);
      }
    }

    lemma NotText(i: nat, was: seq<byte>, p: seq<nat>)
      requires Mid(i, was, p) && !Scan(input, i).value.0.Text?
      ensures iterStart <= i && !dontCheck && (tagTracked <==> input[i] >= HIGH)
    {
      hide Scan, Stream;
    }

    predicate IsLink(tag: int) {
      tag == COPY || tag == REFP || tag == ALIAS || tag == OBJECTV || tag == OBJECTV_FREEZE
    }

    /** The link at i has been read, and what stands in front of it is in the chunk. */
    ghost predicate Linked(i: nat, was: seq<byte>, p: seq<nat>, offset: nat)
      reads this
    {
      && Before(i, was, p, strings, utf8s) && Around(i, p) && iterStart == pos == Scan(input, i).value.1 <= |input|
      && chunk == was && chunkOffset == |chunk| && chunkSize + lo == |chunk| && (tagTracked <==> input[i] >= HIGH)
      && var t := Scan(input, i).value.0; (t.Copy? || t.Refer? || t.Alias? || t.ObjectV?) && t.target == offset
    }

    /** The offset of the link at i. */
    function Target(i: nat): nat {
      if Scan(input, i).Some? && HasTarget(Scan(input, i).value.0) then Scan(input, i).value.0.target else 0
    }

    static predicate HasTarget(t: Token) { t.Copy? || t.Refer? || t.Alias? || t.ObjectV? }

    /** Reads the offset of the link at i. */
    method ReadLink(ghost i: nat, ghost was: seq<byte>, ghost p: seq<nat>) returns (offset: nat)
      requires Mid(i, was, p) && pos == i + 1 && IsLink(input[i] % HIGH)
      modifies `pos, `iterStart, `chunk, `chunkOffset, `chunkSize
      ensures Linked(i, was, p, offset) && offset == Target(i)
    {
      hide Scan, Before, Around, Read, Fit;
      MidAt(i, was, p);
      LinkCase(input, i);
      var start := pos - 1;
      offset := ReadVarint();
      NotText(i, was, p);
      FlushBefore(pos, i, was, start);
    }

    /** Goes to the target of a link, to come back here. */
    method GoTo(offset: nat)
      modifies `pos, `iterStart, `stack, `deepness
      ensures stack == old(stack) + [DeepnessUp, Jump(old(pos)), Status.Value] && deepness == old(deepness) + 1
      ensures pos == iterStart == offset
    {
      deepness := deepness + 1;
      Push(DeepnessUp);
      Push(Jump(pos));
      Push(Status.Value);
      pos := offset;
      iterStart := offset;
    }

    /** A link whose target is in the chunk. */
    lemma LinkNamed(i: nat, was: seq<byte>, p: seq<nat>, offset: nat)
      requires Linked(i, was, p, offset) && offset in offsets
      requires Scan(input, i).value.0.Refer? || Scan(input, i).value.0.Alias?
      ensures Named(input, was, src, offsets[offset], |was|, offset) && offsets[offset] < |was| < WORD
      ensures Before(i, was, p, strings, utf8s) && Pending(input, pos, stack) == Some([] + p) && OnPath(input, pos)
      ensures JumpsOnPath(input, stack) && Shape(stack, rest, deepness) && Plain(stack) && Progress(i, stack)
      ensures Scan(input, i).value.0.Alias? ==> !tagTracked
    {
      hide Scan, Stream, SameAll, StringsOk, Less, Fit, ItemAt, Pending, Resolve, Path, JumpsOnPath, Shape, Plain, OnPath, OffsetsOk;
      FitResolve(input, i);
      LeafStep(input, i, stack, p, offsets);
      NamedBefore(input, was, src, offsets, i, tagTracked, offset);
    }

    /** A link whose target is not in the chunk. */
    lemma LinkFollowed(i: nat, was: seq<byte>, p: seq<nat>, offset: nat)
      requires Linked(i, was, p, offset) && offset !in offsets
      requires Scan(input, i).value.0.Refer? || Scan(input, i).value.0.Alias?
      ensures Before(i, was, p, strings, utf8s) && offset <= |input|
      ensures var s' := stack + [DeepnessUp, Jump(pos), Status.Value];
              && Pending(input, offset, s') == Some([offset] + p) && OnPath(input, offset)
              && Shape(s', rest, deepness + 1) && Plain(s') && JumpsOnPath(input, s')
              && Less(input, offsets, i, stack + [Status.Value], offsets, offset, s', Room(input, i))
      ensures Scan(input, i).value.0.Alias? ==>
        !tagTracked && !KeyLike(input, i) && Resolve(input, offset) == Resolve(input, i)
    {
      hide Scan, Stream, SameAll, StringsOk, Less, Fit, ItemAt, Pending, Resolve, Path, JumpsOnPath, Shape, Plain, OnPath, OffsetsOk;
      FitResolve(input, i);
      LeafStep(input, i, stack, p, offsets);
      JumpStep(input, pos, stack, p, offset, rest, deepness);
      ItemParse(input, offset);
      FollowWork(input, i, stack, offset);
      SomethingFound(input, offsets, i, stack + [Status.Value], offset, stack + [DeepnessUp, Jump(pos), Status.Value], Room(input, i));
      if Scan(input, i).value.0.Alias? {
        NotKey(input, i);
      }
    }

    /** An ALIAS stays one if its target is in the chunk; otherwise the target is written out. */
    method ReadAlias(ghost i: nat, ghost was: seq<byte>, ghost p: seq<nat>)
      requires Mid(i, was, p) && pos == i + 1 && input[i] % HIGH == ALIAS
      modifies `pos, `iterStart, `chunk, `chunkOffset, `chunkSize, `stack, `deepness, `owed, `src
      ensures Inv(false, false) && Progress(i, old(stack)) && Added(i, |was|)
      ensures var x := Target(i); if x in offsets then chunk == was + [ALIAS] + Write(offsets[x])
                                  else chunk == was && pos == x
    {
      hide Target, Write, Scan, Inv, Less, Pending, Shape, JumpsOnPath, Plain, OnPath, Resolve, Named, Before, Around, KeyLike, Layout;
      IsAlias(i, was, p);
      var offset := ReadLink(i, was, p);
      if offset in offsets {
        LinkNamed(i, was, p, offset);
        PutNumber(ALIAS, offsets[offset]);
        EmitLink(i, was, p, ALIAS, offsets[offset]);
        AddedHere(i, was, offsets[offset]);
      } else {
        LinkFollowed(i, was, p, offset);
        GoTo(offset);
        Expanded(i, was, p, offset, false);
      }
    }

    /** A REFP stays one if its target is in the chunk; otherwise it becomes a REFN, and the target is
        written behind it. */
    method ReadRefp(ghost i: nat, ghost was: seq<byte>, ghost p: seq<nat>)
      requires Mid(i, was, p) && pos == i + 1 && input[i] % HIGH == REFP
      modifies `pos, `iterStart, `chunk, `chunkOffset, `chunkSize, `stack, `deepness, `owed, `src
      ensures Inv(false, false) && Progress(i, old(stack)) && Added(i, |was|)
      ensures var x := Target(i); if x in offsets then chunk == was + [WithFlag(REFP)] + Write(offsets[x])
                                  else chunk == was + [WithFlag(REFN)] && pos == x
    {
      hide Target, Write, Scan, Inv, Less, Pending, Shape, JumpsOnPath, Plain, OnPath, Resolve, Named, Before, Around, KeyLike, Layout;
      IsRefer(i, was, p);
      var offset := ReadLink(i, was, p);
      if offset in offsets {
        LinkNamed(i, was, p, offset);
        var h := WithFlag(REFP);
        PutNumber(h, offsets[offset]);
        EmitLink(i, was, p, h, offsets[offset]);
        AddedHere(i, was, offsets[offset]);
      } else {
        LinkFollowed(i, was, p, offset);
        var h := WithFlag(REFN);
        Cat([h]);
        GoTo(offset);
        EmitBare(i, was, p, h);
      }
    }

    lemma IsAlias(i: nat, was: seq<byte>, p: seq<nat>)
      requires Mid(i, was, p) && input[i] % HIGH == ALIAS
      ensures Scan(input, i).Some? && Scan(input, i).value.0.Alias?
    {
      hide Scan, Stream;
      LinkCase(input, i);
    }

    lemma IsRefer(i: nat, was: seq<byte>, p: seq<nat>)
      requires Mid(i, was, p) && input[i] % HIGH == REFP
      ensures Scan(input, i).Some? && Scan(input, i).value.0.Refer?
      ensures Owes(input, i, Open(REFN, 0)) == [Scan(input, i).value.0.target]
    {
      hide Scan, Stream;
      LinkCase(input, i);
    }

    lemma IsObjectv(i: nat, was: seq<byte>, p: seq<nat>, freeze: bool)
      requires Mid(i, was, p) && input[i] % HIGH == (if freeze then OBJECTV_FREEZE else OBJECTV)
      ensures Scan(input, i).Some?
      ensures var (t, q) := Scan(input, i).value;
              var tag := if freeze then OBJECT_FREEZE else OBJECT;
              t.ObjectV? && t.tag == tag && Owes(input, i, Open(tag, 0)) == [t.target, q]
    {
      hide Scan, Stream;
      LinkCase(input, i);
    }

    lemma IsCopy(i: nat, was: seq<byte>, p: seq<nat>)
      requires Mid(i, was, p) && input[i] % HIGH == COPY
      ensures Scan(input, i).Some? && Scan(input, i).value.0.Copy?
    {
      hide Scan, Stream;
      LinkCase(input, i);
    }

    /** An OBJECTV becomes an OBJECT, with the class name fetched from where it points. */
    method ReadObjectv(freeze: bool, ghost i: nat, ghost was: seq<byte>, ghost p: seq<nat>)
      requires Mid(i, was, p) && pos == i + 1 && input[i] % HIGH == (if freeze then OBJECTV_FREEZE else OBJECTV)
      modifies `pos, `iterStart, `chunk, `chunkOffset, `chunkSize, `stack, `deepness, `owed, `src
      ensures Inv(false, false) && Progress(i, old(stack)) && Added(i, |was|)
      ensures chunk == was + [WithFlag(if freeze then OBJECT_FREEZE else OBJECT)] && pos == Target(i)
    {
      hide Target, Write, Scan, Inv, Less, Pending, Shape, JumpsOnPath, Plain, OnPath, Resolve, Named, Before, Around, KeyLike, Layout, Owes;
      IsObjectv(i, was, p, freeze);
      var offset := ReadLink(i, was, p);
      LinkObjectv(i, was, p, offset);
      var h := WithFlag(if freeze then OBJECT_FREEZE else OBJECT);
      Cat([h]);
      GoToClass(offset);
      EmitBare(i, was, p, h);
    }

    /** Goes to a class name, to come back here for the object's value. */
    method GoToClass(offset: nat)
      modifies `pos, `iterStart, `stack, `deepness
      ensures stack == old(stack) + [DeepnessUp, Status.Value, Jump(old(pos)), Status.Value] && deepness == old(deepness) + 1
      ensures pos == iterStart == offset
    {
      deepness := deepness + 1;
      Push(DeepnessUp);
      Push(Status.Value);
      Push(Jump(pos));
      Push(Status.Value);
      pos := offset;
      iterStart := offset;
    }

    lemma LinkObjectv(i: nat, was: seq<byte>, p: seq<nat>, offset: nat)
      requires Linked(i, was, p, offset) && Scan(input, i).value.0.ObjectV?
      ensures Before(i, was, p, strings, utf8s) && offset <= |input|
      ensures var s' := stack + [DeepnessUp, Status.Value, Jump(pos), Status.Value];
              && Pending(input, offset, s') == Some([offset, pos] + p) && OnPath(input, offset)
              && Shape(s', rest, deepness + 1) && Plain(s') && JumpsOnPath(input, s')
              && Less(input, offsets, i, stack + [Status.Value], offsets, offset, s', Room(input, i))
    {
      hide Scan, Stream, SameAll, StringsOk, Less, Fit, ItemAt, Pending, Resolve, Path, JumpsOnPath, Shape, Plain, OnPath, OffsetsOk;
      ObjectvStep(input, i, stack, p, rest, deepness, offsets);
      ItemParse(input, offset);
    }

    /** A COPY is replaced by the string it copies.  Where the COPY carries the track flag, the string is
        to carry it instead. */
    method ReadCopy(ghost i: nat, ghost was: seq<byte>, ghost p: seq<nat>)
      requires Mid(i, was, p) && pos == i + 1 && input[i] % HIGH == COPY
      modifies `pos, `iterStart, `chunk, `chunkOffset, `chunkSize, `stack, `deepness
      ensures Inv(false, false) && Progress(i, old(stack)) && Added(i, |was|)
      ensures chunk == was && pos == Target(i)
    {
      hide Target, Write, Scan, Inv, Less, Pending, Shape, JumpsOnPath, Plain, OnPath, Resolve, Named, Before, Around, KeyLike, Layout, Held, TextAt;
      IsCopy(i, was, p);
      var offset := ReadLink(i, was, p);
      LinkCopied(i, was, p, offset);
      GoTo(offset);
      if tagTracked {
        Push(TrackNext);
        Push(DontCheck);
        assert stack == old(stack) + CopyStack(Scan(input, i).value.1, true);
      } else {
        assert stack == old(stack) + CopyStack(Scan(input, i).value.1, false);
      }
      Expanded(i, was, p, offset, tagTracked);
    }

    function CopyStack(q: nat, tracked: bool): seq<Status> {
      [DeepnessUp, Jump(q), Status.Value] + (if tracked then [TrackNext, DontCheck] else [])
    }

    lemma LinkCopied(i: nat, was: seq<byte>, p: seq<nat>, offset: nat)
      requires Linked(i, was, p, offset) && Scan(input, i).value.0.Copy?
      ensures Before(i, was, p, strings, utf8s) && offset <= |input| && TextAt(input, offset) && KeyLike(input, offset)
      ensures Resolve(input, offset) == Resolve(input, i)
      ensures var s' := stack + CopyStack(pos, tagTracked);
              && Pending(input, offset, s') == Some([offset] + p) && OnPath(input, offset)
              && Shape(s', rest, deepness + 1) && JumpsOnPath(input, s')
              && (if tagTracked then Held(s', false, false) else Plain(s'))
              && Less(input, offsets, i, stack + [Status.Value], offsets, offset, s', Room(input, i))
    {
      hide Scan, Stream, SameAll, StringsOk, Less, Fit, ItemAt, Pending, Resolve, Path, JumpsOnPath, Shape, Plain, OnPath, OffsetsOk, TextAt, Held, KeyLike;
      FitResolve(input, i);
      LeafStep(input, i, stack, p, offsets);
      ItemParse(input, offset);
      TextKey(input, offset);
      JumpStep(input, pos, stack, p, offset, rest, deepness);
      CopyWork(input, i, stack, offsets, tagTracked);
      var s3 := stack + [DeepnessUp, Jump(pos), Status.Value];
      assert stack + CopyStack(pos, tagTracked) == s3 + (if tagTracked then [TrackNext, DontCheck] else []);
      if tagTracked {
        ShapeTall(stack, rest, deepness);
        HeldStep(input, s3, offset, [offset] + p, rest, deepness + 1);
      } else {
        assert s3 + [] == s3;
      }
    }

    /** A link to position v, which stands for the same item as the link at i. */
    ghost method EmitLink(i: nat, was: seq<byte>, p: seq<nat>, h: byte, v: nat)
      requires Before(i, was, p, strings, utf8s) && iterStart == pos <= |input|
      requires chunk == was + [h] + Write(v) && chunkOffset == |chunk| && chunkSize + lo == |chunk|
      requires (h % HIGH == REFP && Scan(input, i).value.0.Refer?) || (h % HIGH == ALIAS && Scan(input, i).value.0.Alias?)
      requires h >= HIGH <==> tagTracked
      requires Named(input, was, src, v, |was|, Scan(input, i).value.0.target)
      requires Pending(input, pos, stack) == Some([] + p)
      requires OnPath(input, pos) && JumpsOnPath(input, stack) && Shape(stack, rest, deepness) && Plain(stack)
      modifies `owed, `src
      ensures Inv(false, false)
    {
      hide Scan, SameAll, OffsetsOk, StringsOk, Pending, JumpsOnPath, Shape, Plain, Inv, OnPath, Path, ItemAt, Fit, Write, Stream, Resolve;
      var out := Body();
      assert out == was + [h] + Write(v);
      NumberScan(was, out, h, h % HIGH, v);
      SameFront(was, out);
      Emit(i, was, p, if h % HIGH == REFP then Refer(v) else Alias(v), strings, utf8s);
    }

    /** A tag in place of a link: REFN for REFP, OBJECT for OBJECTV. */
    ghost method EmitBare(i: nat, was: seq<byte>, p: seq<nat>, h: byte)
      requires Before(i, was, p, strings, utf8s) && iterStart == pos <= |input|
      requires chunk == was + [h] && chunkOffset == |chunk| && chunkSize + lo == |chunk|
      requires var t := Scan(input, i).value.0;
        || (h % HIGH == REFN && t.Refer?)
        || ((h % HIGH == OBJECT || h % HIGH == OBJECT_FREEZE) && t.ObjectV? && t.tag == h % HIGH)
      requires h >= HIGH <==> tagTracked
      requires Pending(input, pos, stack) == Some(Owes(input, i, Open(h % HIGH, 0)) + p)
      requires OnPath(input, pos) && JumpsOnPath(input, stack) && Shape(stack, rest, deepness) && Plain(stack)
      modifies `owed, `src
      ensures Inv(false, false)
    {
      hide Scan, SameAll, OffsetsOk, StringsOk, Pending, JumpsOnPath, Shape, Plain, Inv, OnPath, Path, ItemAt, Fit, Stream, Owes;
      var out := Body();
      assert out == was + [h];
      BareScan(was, out, h);
      Emit(i, was, p, Open(h % HIGH, 0), strings, utf8s);
    }

    /** The dispatch on the tag at i, which has just been passed. */
    method ReadTag(tag: byte, ghost i: nat, ghost was: seq<byte>, ghost p: seq<nat>)
      requires Mid(i, was, p) && pos == i + 1 && tag == input[i] % HIGH
      modifies `pos, `iterStart, `chunk, `chunkOffset, `chunkSize, `stack, `deepness, `strings, `utf8s, `owed, `src
      ensures Inv(false, false) && Progress(i, old(stack)) && Added(i, |was|)
    {
      hide Scan, Inv, Mid, Progress, Read, Fit, ItemAt, Before, Layout, Around;
      MidAt(i, was, p);
      KnownCase(input, i);
      if tag <= NEG_HIGH {
        ReadScalar(tag, i, was, p);
      } else if tag >= SHORT_BINARY {
        TextCase(input, i);
        CheckDuplicates(pos - 1, tag - SHORT_BINARY, false, was, p);
      } else if tag >= ARRAYREF {
        ReadOpen(tag, i, was, p);
      } else if tag == BINARY {
        ReadString(false, i, was, p);
      } else if tag == STR_UTF8 {
        ReadString(true, i, was, p);
      } else if tag == REFP {
        ReadRefp(i, was, p);
      } else if tag == OBJECTV {
        ReadObjectv(false, i, was, p);
      } else if tag == OBJECTV_FREEZE {
        ReadObjectv(true, i, was, p);
      } else if tag == ALIAS {
        ReadAlias(i, was, p);
      } else if tag == COPY {
        ReadCopy(i, was, p);
      } else if tag == WEAKEN || tag == REFN || tag == HASH || tag == ARRAY || tag == OBJECT || tag == OBJECT_FREEZE {
        ReadOpen(tag, i, was, p);
      } else {
        ReadScalar(tag, i, was, p);
      }
    }

    // ----- the machine -----

    method Pop() returns (e: Status)
      requires stack != []
      modifies `stack
      ensures e == Top(old(stack)) && stack == Below(old(stack))
    {
      e := stack[|stack| - 1];
      stack := stack[..|stack| - 1];
    }

    /** Between two calls of the machine, or inside one: the invariant, and the flags in their places. */
    ghost predicate Steady(force: bool)
      reads this
    {
      Inv(force, dontCheck) && !tagTracked
    }

    /** A value: one item, or its first tag, is read. */
    method StepValue(force: bool)
      requires Steady(force) && stack != [] && Top(stack) == Status.Value && BodySize() < WORD
      modifies `pos, `iterStart, `chunk, `chunkOffset, `chunkSize, `stack, `deepness, `dontCheck, `tagTracked
      modifies `offsets, `strings, `utf8s, `owed, `src, `rest
      ensures Steady(false) && !dontCheck
      ensures rest == old(rest) - (if old(deepness) == 0 then 1 else 0)
      ensures Less(input, old(offsets), old(pos), old(stack), offsets, pos, stack, 0)
      ensures BodySize() + Energy(input, offsets, pos, stack) <= old(BodySize() + Energy(input, offsets, pos, stack))
    {
      hide Scan, Inv, Mid, Missing, Work, Energy, Less, Progress, Added;
      InvRange(force);
      ghost var i, was := pos, Body();
      var tag;
      ghost var p;
      tag, p := BeginTag(force);
      ghost var s0 := stack;
      ReadTag(tag, i, was, p);
      dontCheck := false;
      tagTracked := false;
      assert s0 + [Status.Value] == old(stack);
      Spent(i, s0, |was|, old(offsets));
    }

    /** What a step adds is taken from what can still be written. */
    lemma Spent(i: nat, s0: seq<Status>, n: nat, offsets0: map<nat, nat>)
      requires Progress(i, s0) && Added(i, n)
      requires Missing(input, offsets, i, s0 + [Status.Value]) == Missing(input, offsets0, i, s0 + [Status.Value])
      ensures Less(input, offsets0, i, s0 + [Status.Value], offsets, pos, stack, 0)
      ensures BodySize() + Energy(input, offsets, pos, stack) <= n + Energy(input, offsets0, i, s0 + [Status.Value])
    {
      hide Missing, Work, Dear, Energy, Room;
      LessEnergy(input, offsets0, i, s0 + [Status.Value], offsets, pos, stack, Room(input, i));
    }

    lemma InvRange(force: bool)
      requires Steady(force)
      ensures iterStart <= pos <= |input| && Shape(stack, rest, deepness) && Mode(stack, force, dontCheck)
    {
      hide Sealed, Scan, Stream, SameAll, StringsOk, Pending, Shape, Mode, Held, OnPath, JumpsOnPath, Fit, OffsetsOk;
    }

    /** What is known of the value at i once it has been taken off the stack. */
    ghost predicate Ready(i: nat, was: seq<byte>, p: seq<nat>, force: bool)
      reads `pos, `stack, `deepness, `offsets, `strings, `utf8s, `lo, `owed, `src, `rest, `first, `front, `tagTracked, `dontCheck
      reads `mark, `left
    {
      && Fit(input) && ItemAt(input, i) && Scan(input, i).Some? && 0 < lo && |was| < WORD
      && Stream(input, was, lo, owed, src) && owed[lo] == first && |front| == lo && front <= was && SameAll(input, owed[|was|], [i] + p)
      && rest <= |p| && Above(|was|) && Sealed(was, lo, owed, mark, left) && Around(i, p)
      && OffsetsOk(input, was, src, offsets, if force then Some(i) else None)
      && StringsOk(was, src, strings, false) && StringsOk(was, src, utf8s, true)
      && i == pos < |input| && !tagTracked && (dontCheck <==> force) && (force ==> TextAt(input, i))
    }

    /** Its tag is still to be read. */
    ghost predicate Opened(i: nat, was: seq<byte>, p: seq<nat>, force: bool)
      reads this
    {
      && Ready(i, was, p, force) && iterStart <= i && chunkOffset == |chunk| && chunkSize + lo == |chunk| && Body() == was
    }

    method PopValue(force: bool) returns (ghost p: seq<nat>)
      requires Steady(force) && stack != [] && Top(stack) == Status.Value && BodySize() < WORD
      modifies `stack, `rest
      ensures iterStart <= pos <= |input| && Opened(pos, Body(), p, force) && stack == Below(old(stack))
      ensures rest == old(rest) - (if deepness == 0 then 1 else 0)
    {
      hide Sealed, Scan, Stream, SameAll, StringsOk, Pending, Shape, Mode, Held, OnPath, JumpsOnPath, Fit, OffsetsOk, Plain, ItemAt, Path, Parse;
      TopItem(input, pos, stack);
      Popped(stack, rest, deepness, force, dontCheck);
      JumpsBelow(input, stack);
      p := Pending(input, Parse(input, pos, [Item]).value, Below(stack)).value;
      var e := Pop();
      rest := if deepness == 0 then rest - 1 else rest;
      ShapeValues(stack, rest, deepness);
      PendingRest(input, Parse(input, pos, [Item]).value, stack, rest);
    }

    /** Takes the value off the stack and passes its tag, which is entered into the table if it carries the
        track flag or is to carry it. */
    method BeginTag(force: bool) returns (tag: byte, ghost p: seq<nat>)
      requires Steady(force) && stack != [] && Top(stack) == Status.Value && BodySize() < WORD
      modifies `pos, `iterStart, `chunk, `chunkOffset, `chunkSize, `stack, `tagTracked, `offsets, `rest
      ensures old(iterStart) <= old(pos) < |input| && tag == input[old(pos)] % HIGH && pos == old(pos) + 1
      ensures Mid(old(pos), old(Body()), p) && stack == Below(old(stack))
      ensures rest == old(rest) - (if deepness == 0 then 1 else 0)
      ensures Missing(input, offsets, old(pos), old(stack)) == Missing(input, old(offsets), old(pos), old(stack))
    {
      hide Scan, Inv, Missing, Opened, Mid, Ready, Shape, Mode;
      InvRange(force);
      ghost var i, was, s0 := pos, Body(), stack;
      p := PopValue(force);
      OpenedRange(i, was, p, force);
      tag := input[pos];
      if force {
        tag := ForceTag(tag, i, was, p);
      }
      tag := PassTag(tag, force, i, was, p, s0);
    }

    lemma OpenedRange(i: nat, was: seq<byte>, p: seq<nat>, force: bool)
      requires Opened(i, was, p, force)
      ensures iterStart <= i == pos < |input| && Ready(i, was, p, force) && chunk + input[iterStart..i] == was
      ensures chunkOffset == |chunk| && chunkSize + lo == |chunk|
    {
      hide Sealed, Scan, Stream, SameAll, StringsOk, Fit, OffsetsOk, ItemAt, Around;
    }

    /** Writes the tag with the track flag, in place of the one in the input. */
    method ForceTag(tag0: byte, ghost i: nat, ghost was: seq<byte>, ghost p: seq<nat>) returns (tag: byte)
      requires Opened(i, was, p, true) && tag0 == input[pos]
      modifies `iterStart, `chunk, `chunkOffset, `chunkSize
      ensures tag % HIGH == tag0 % HIGH && tag >= HIGH && iterStart == pos + 1
      ensures chunk == was + [tag] && chunkOffset == |chunk| && chunkSize + lo == |chunk|
    {
      hide Sealed, Scan, Stream, SameAll, StringsOk, Fit, OffsetsOk, ItemAt, Around;
      var did := Flush(pos, pos + 1);
      assert chunk == was;
      tag := if tag0 < HIGH then tag0 + HIGH else tag0;
      Cat([tag]);
    }

    method PassTag(tag0: byte, force: bool, ghost i: nat, ghost was: seq<byte>, ghost p: seq<nat>, ghost s0: seq<Status>)
      returns (tag: byte)
      requires Ready(i, was, p, force) && s0 != [] && Top(s0) == Status.Value
      requires if force then tag0 >= HIGH && iterStart == i + 1 && chunk == was + [tag0] && tag0 % HIGH == input[i] % HIGH
               else tag0 == input[i] && iterStart <= i && chunk + input[iterStart..i] == was
      requires chunkOffset == |chunk| && chunkSize + lo == |chunk|
      modifies `pos, `tagTracked, `offsets
      ensures tag == input[i] % HIGH && pos == i + 1 && Mid(i, was, p)
      ensures Missing(input, offsets, i, s0) == Missing(input, old(offsets), i, s0)
    {
      hide Sealed, Scan, Stream, SameAll, StringsOk, Fit, Missing, OffsetsOk, ItemAt, Around;
      EnterOffset(input, was, src, offsets, force, i, s0);
      tag := tag0;
      if tag >= HIGH {
        tagTracked := true;
        tag := tag - HIGH;
        var newOffset := chunkOffset + (pos - iterStart);
        if pos !in offsets {
          offsets := offsets[pos := newOffset];
        }
      }
      pos := pos + 1;
    }

    /** The flags are up only inside an element. */
    ghost predicate Poised(force: bool)
      reads this
    {
      Steady(force) && (force || dontCheck ==> deepness > 0)
    }

    /** One turn of the machine. */
    method Step(force: bool) returns (force': bool)
      requires Poised(force) && stack != [] && BodySize() < WORD
      modifies `pos, `iterStart, `chunk, `chunkOffset, `chunkSize, `stack, `deepness, `dontCheck, `tagTracked
      modifies `offsets, `strings, `utf8s, `owed, `src, `rest
      ensures Poised(force') && rest == old(rest) - (if old(deepness) == 0 then 1 else 0)
      ensures Less(input, old(offsets), old(pos), old(stack), offsets, pos, stack, 0)
      ensures BodySize() + Energy(input, offsets, pos, stack) <= old(BodySize() + Energy(input, offsets, pos, stack))
    {
      hide Scan, Inv, Less, Shape, Mode, Held, Energy;
      InvRange(force);
      Popped(stack, rest, deepness, force, dontCheck);
      if stack[|stack| - 1] == Status.Value {
        StepValue(force);
        force' := false;
        InvRange(false);
      } else {
        force' := StepMark(force);
      }
    }

    /** The other entries: a level left, a flag raised, a jump. */
    method StepMark(force: bool) returns (force': bool)
      requires Poised(force) && stack != [] && Top(stack) != Status.Value
      modifies `pos, `iterStart, `chunk, `chunkOffset, `chunkSize, `stack, `deepness, `dontCheck
      ensures Poised(force') && 0 < old(deepness)
      ensures Less(input, old(offsets), old(pos), old(stack), offsets, pos, stack, 0)
      ensures BodySize() + Energy(input, offsets, pos, stack) <= old(BodySize() + Energy(input, offsets, pos, stack))
    {
      hide Poised, Less, Energy;
      force' := force;
      var e := stack[|stack| - 1];
      if e == DeepnessUp {
        StepUp(force);
      } else if e == TrackNext || e == DontCheck {
        force' := StepFlag(force);
      } else {
        StepJump(force);
      }
    }

    method StepUp(force: bool)
      requires Poised(force) && stack != [] && Top(stack) == DeepnessUp
      modifies `stack, `deepness
      ensures Poised(force) && 0 < old(deepness)
      ensures Less(input, old(offsets), old(pos), old(stack), offsets, pos, stack, 0)
      ensures BodySize() + Energy(input, offsets, pos, stack) <= old(BodySize() + Energy(input, offsets, pos, stack))
    {
      hide Sealed, Energy, Scan, Stream, SameAll, StringsOk, Pending, Shape, Mode, Held, OnPath, JumpsOnPath, Fit, OffsetsOk, Plain, Path, Less, TextAt, Work;
      Popped(stack, rest, deepness, force, dontCheck);
      PoppedPending(input, pos, stack);
      PoppedLess(input, pos, stack, offsets);
      JumpsBelow(input, stack);
      var e := Pop();
      deepness := deepness - 1;
      PlainNotHeld(stack);
    }

    method StepFlag(force: bool) returns (force': bool)
      requires Poised(force) && stack != [] && (Top(stack) == TrackNext || Top(stack) == DontCheck)
      modifies `stack, `dontCheck
      ensures Poised(force') && 0 < old(deepness)
      ensures Less(input, old(offsets), old(pos), old(stack), offsets, pos, stack, 0)
      ensures BodySize() + Energy(input, offsets, pos, stack) <= old(BodySize() + Energy(input, offsets, pos, stack))
    {
      hide Sealed, Energy, Scan, Stream, SameAll, StringsOk, Pending, Shape, Mode, Held, OnPath, JumpsOnPath, Fit, OffsetsOk, Plain, Path, Less, TextAt, Work;
      Popped(stack, rest, deepness, force, dontCheck);
      PoppedPending(input, pos, stack);
      PoppedLess(input, pos, stack, offsets);
      JumpsBelow(input, stack);
      var e := Pop();
      force' := force;
      if e == TrackNext {
        force' := true;
      } else {
        dontCheck := true;
      }
    }

    method StepJump(force: bool)
      requires Poised(force) && stack != [] && Top(stack).Jump?
      modifies `pos, `iterStart, `chunk, `chunkOffset, `chunkSize, `stack
      ensures Poised(force) && 0 < old(deepness)
      ensures Less(input, old(offsets), old(pos), old(stack), offsets, pos, stack, 0)
      ensures BodySize() + Energy(input, offsets, pos, stack) <= old(BodySize() + Energy(input, offsets, pos, stack))
    {
      hide Sealed, Energy, Scan, Stream, SameAll, StringsOk, Pending, Shape, Mode, Held, OnPath, JumpsOnPath, Fit, OffsetsOk, Plain, Path, Less, TextAt, Work;
      Popped(stack, rest, deepness, force, dontCheck);
      PoppedPending(input, pos, stack);
      PoppedLess(input, pos, stack, offsets);
      JumpsBelow(input, stack);
      var e := Pop();
      JumpInside(e.to);
      Land(e.to);
      PlainNotHeld(stack);
    }

    /** Moves the reader to `to`, and what it leaves behind into the chunk. */
    method Land(to: nat)
      requires iterStart <= pos <= |input| && to <= |input| && chunkOffset == |chunk| && chunkSize + lo == |chunk|
      modifies `pos, `iterStart, `chunk, `chunkOffset, `chunkSize
      ensures pos == iterStart == to && Body() == old(Body()) && chunkOffset == |chunk| && chunkSize + lo == |chunk|
    {
      ghost var was := Body();
      var did := Flush(pos, pos);
      assert chunk == was;
      pos := to;
      iterStart := to;
      assert Body() == was;
    }

    lemma JumpInside(to: nat)
      requires OnPath(input, to)
      ensures to <= |input|
    {
    }

    /** Between two elements. */
    ghost predicate Level()
      reads this
    {
      Steady(false) && deepness == 0 && !dontCheck
    }

    lemma InvSize(force: bool)
      requires Steady(force)
      ensures chunkOffset == |chunk| && chunkSize + lo == |chunk| && lo <= BodySize() && 0 < lo
      ensures iterStart <= pos <= |input| && front <= Body()
    {
      hide Sealed, Scan, SameAll, StringsOk, Pending, Shape, Mode, Held, OnPath, JumpsOnPath, Fit, OffsetsOk;
    }

    /** At level zero, with elements written, the chunk has grown. */
    lemma Grown()
      requires Level() && rest < |first|
      ensures lo < BodySize()
    {
      hide Sealed, Scan, StringsOk, Pending, Shape, Mode, Held, OnPath, JumpsOnPath, Fit, OffsetsOk, Same, Paid;
      LevelOwed();
      NoSrcAtEnd(input, Body(), lo, owed, src);
    }

    /** At level zero the chunk owes the elements to come. */
    lemma LevelOwed()
      requires Level()
      ensures iterStart <= pos <= |input| && |Body()| in owed && |owed[|Body()|]| == rest
      ensures stack == Values(rest) && Pending(input, pos, Values(rest)).Some?
      ensures SameAll(input, owed[|Body()|], Pending(input, pos, Values(rest)).value)
    {
      hide Sealed, Scan, StringsOk, Pending, Shape, Mode, Held, OnPath, JumpsOnPath, Fit, OffsetsOk, Same, Paid;
      DeepEnough(stack, rest, deepness);
      PendingFlat(input, pos, rest);
    }

    /** Moves what is still in the input only into the chunk. */
    method FlushAll() returns (did: bool)
      requires Level()
      modifies `chunk, `chunkOffset, `chunkSize, `iterStart
      ensures Level() && iterStart == pos && chunk == Body() == old(Body())
      ensures did == (pos > old(iterStart)) && chunkSize == old(chunkSize) + pos - old(iterStart)
    {
      hide Sealed, Scan, Stream, SameAll, StringsOk, Pending, Shape, Mode, Held, OnPath, JumpsOnPath, Fit, OffsetsOk;
      ghost var was := Body();
      did := Flush(pos, pos);
      assert chunk == was && Body() == was;
    }

    /** Runs the machine until the chunk is large enough or the input is used up.  `ok` is false when the
        chunk would outgrow the memory. */
    method ParseChunk() returns (ok: bool, found: bool)
      requires Level() && nbElts == 0 && |first| == rest && BodySize() == lo
      modifies `pos, `iterStart, `chunk, `chunkOffset, `chunkSize, `nbElts, `stack, `deepness, `dontCheck, `tagTracked
      modifies `offsets, `strings, `utf8s, `owed, `src, `rest, `mark, `left
      ensures rest <= old(rest)
      ensures old(BodySize() + Energy(input, offsets, pos, stack)) < WORD ==> ok
      ensures ok ==> Level() && iterStart == pos <= |input| && chunk == Body() && nbElts == old(rest) - rest
      ensures ok ==> chunkSize + lo == |chunk| && front <= chunk
      ensures ok ==> (found <==> nbElts > 0) && (rest == 0 || (found && chunkSize >= sizeLimit))
      ensures ok && nbElts > 0 ==> left == rest + 1
      ensures ok && nbElts > 1 ==> mark < lo + sizeLimit
    {
      hide Scan, Inv, Shape, Mode, Held, Missing, Work, Energy, Sealed, Less;
      var force := false;
      while stack != []
        invariant BodySize() + Energy(input, offsets, pos, stack) <= old(BodySize() + Energy(input, offsets, pos, stack))
        invariant Running(force, old(rest)) && (nbElts > 0 && deepness == 0 ==> BodySize() < lo + sizeLimit)
        decreases Missing(input, offsets, pos, stack), Work(input, pos, stack)
      {
        InvRange(force);
        InvSize(force);
        if chunkOffset + (pos - iterStart) >= WORD {
          return false, false;
        }
        ghost var offsets0, pos0, stack0 := offsets, pos, stack;
        force := Element(force, old(rest));
        LessShrinks(input, offsets0, pos0, stack0, offsets, pos, stack);
        InvSize(force);
        if deepness == 0 && chunkSize + pos - iterStart >= sizeLimit {
          var did := FlushAll();
          InvSize(false);
          return true, true;
        }
      }
      found := LastFlush(force);
      return true, found;
    }

    /** Inside a chunk that began with `rest0` elements to come: what has been counted, and where the element in
        hand, or the last one, begins. */
    ghost predicate Running(force: bool, rest0: nat)
      reads this
    {
      && Poised(force) && rest <= rest0 && nbElts == rest0 - rest - (if deepness > 0 then 1 else 0)
      && (rest == rest0 ==> BodySize() == lo && deepness == 0)
      && (nbElts > 0 || deepness > 0 ==> left == rest + 1)
      && (nbElts > 1 || (nbElts > 0 && deepness > 0) ==> mark < lo + sizeLimit)
    }

    /** One turn of the machine; an element that is complete is counted. */
    method Element(force: bool, ghost rest0: nat) returns (force': bool)
      requires Running(force, rest0) && stack != [] && BodySize() < WORD
      requires nbElts > 0 && deepness == 0 ==> BodySize() < lo + sizeLimit
      modifies `pos, `iterStart, `chunk, `chunkOffset, `chunkSize, `nbElts, `stack, `deepness, `dontCheck, `tagTracked
      modifies `offsets, `strings, `utf8s, `owed, `src, `rest, `mark, `left
      ensures Running(force', rest0) && (deepness == 0 ==> nbElts > 0)
      ensures Less(input, old(offsets), old(pos), old(stack), offsets, pos, stack, 0)
      ensures BodySize() + Energy(input, offsets, pos, stack) <= old(BodySize() + Energy(input, offsets, pos, stack))
    {
      hide Scan, Inv, Shape, Mode, Held, Missing, Work, Energy, Sealed, Less;
      InvRange(force);
      InvSize(force);
      DeepEnough(stack, rest, deepness);
      if deepness == 0 {
        Begins();
      }
      force' := Step(force);
      InvRange(force');
      InvSize(force');
      DeepEnough(stack, rest, deepness);
      if deepness == 0 {
        nbElts := nbElts + 1;
      }
    }

    /** The input is used up; has anything been written? */
    method LastFlush(force: bool) returns (found: bool)
      requires Poised(force) && stack == [] && rest <= |first| && (rest == |first| ==> BodySize() == lo)
      modifies `chunk, `chunkOffset, `chunkSize, `iterStart
      ensures Level() && rest == 0 && iterStart == pos <= |input| && chunk == Body() && BodySize() == old(BodySize())
      ensures chunkSize + lo == |chunk| && front <= chunk
      ensures found <==> 0 < |first|
    {
      hide Scan, Inv, Shape, Mode, Held, Sealed;
      InvRange(force);
      InvSize(force);
      DeepEnough(stack, rest, deepness);
      if rest < |first| {
        Grown();
      }
      var did := FlushAll();
      InvSize(false);
      found := did || chunkSize > 0;
    }

    /** The next element begins at the end of the chunk. */
    ghost method Begins()
      requires Level()
      modifies `mark, `left
      ensures Level() && iterStart <= pos <= |input| && mark == BodySize() && left == rest && BodySize() == old(BodySize())
    {
      hide Scan, Sealed, Core, Mode, Held, Plain;
      EndSealed();
      mark, left := |Body()|, rest;
    }

    lemma EndSealed()
      requires Level()
      ensures iterStart <= pos <= |input| && Sealed(Body(), lo, owed, |Body()|, rest)
    {
      LevelOwed();
      hide Scan, SameAll, StringsOk, Pending, Shape, Mode, Held, OnPath, JumpsOnPath, OffsetsOk, Paid, Parse;
      AllReached(input, Body(), lo, owed, src, rest);
    }

    // ----- the operations -----

    /** Between two chunks: `rest` elements are still to come. */
    ghost predicate Idle()
      reads this
    {
      && Splittable(input) && OnPath(input, pos) && pos <= |input| && stack == Values(rest) && deepness == 0
      && !dontCheck && !tagTracked
      && inputElts == |Elements(input)| && rest <= inputElts && inputElts <= MAX_COUNT
      && Pending(input, pos, stack).Some?
      && SameAll(input, Elements(input)[inputElts - rest..], Pending(input, pos, stack).value)
    }

    /** Reads the root of the document. */
    constructor (doc: seq<byte>, limit: nat)
      requires Splittable(doc)
      ensures Idle() && input == doc && sizeLimit == limit && rest == inputElts
    {
      input, sizeLimit := doc, limit;
      pos, iterStart, chunk, chunkOffset, chunkSize, nbElts, inputElts := 1, 1, [], 0, 0, 0, 0;
      stack, deepness, dontCheck, tagTracked := [], 0, false, false;
      offsets, strings, utf8s := map[], map[], map[];
      rest := 0;
      new;
      ReadRoot();
    }

    /** Reads the tags of the top-level array, and puts its elements on the stack. */
    method ReadRoot()
      requires Splittable(input) && pos == 1 && stack == [] && deepness == 0 && !dontCheck && !tagTracked
      modifies `pos, `stack, `inputElts, `rest
      ensures Idle() && rest == inputElts
    {
      hide Scan, Read, Fit, OnPath, Elements, Root, Pending, Chain, ItemAt, SameAll;
      RootTag(input);
      var tag := input[pos];
      pos := pos + 1;
      var len: nat;
      if tag % HIGH >= ARRAYREF {
        len := tag % 16;
      } else {
        pos := pos + 1;
        len := ReadVarint();
      }
      RootPending(input, pos, len);
      inputElts := len;
      rest := len;
      PushValues(len);
      assert stack == Values(len);
      OnPathInside(pos);
    }

    lemma OnPathInside(p: nat)
      requires OnPath(input, p) && Splittable(input)
      ensures p <= |input|
    {
      PathOrder(input, 1, p);
    }

    /** Empties the tables and opens a new chunk, with room for a count as large as the input's. */
    method OpenChunk() returns (varintLen: nat)
      requires Idle()
      modifies `iterStart, `chunk, `chunkOffset, `chunkSize, `nbElts, `offsets, `strings, `utf8s, `lo, `owed, `src, `first, `front
      modifies `mark, `left
      ensures Level() && nbElts == 0 && |first| == rest && BodySize() == lo
      ensures first == Elements(input)[inputElts - rest..]
      ensures varintLen == |Write(inputElts)| && lo == 3 + varintLen && front == [0, REFN, ARRAY] + Write(inputElts)
      ensures lo + Energy(input, offsets, pos, stack) <= MostBytes(input)
    {
      hide Scan, Fit, OnPath, Elements, Root, Pending, Write, Level;
      offsets, strings, utf8s := map[], map[], map[];
      iterStart := pos;
      varintLen := NewChunk();
      StartChunk(Elements(input)[inputElts - rest..]);
      WriteLength(inputElts, 5);
      Opening(input, pos, rest);
    }

    /** The ghost side of a new chunk, which is to hold the elements xs. */
    ghost method StartChunk(xs: seq<nat>)
      requires Fit(input) && OnPath(input, pos) && iterStart == pos <= |input| && stack == Values(rest) && deepness == 0
      requires !dontCheck && !tagTracked && chunkOffset == |chunk| && chunkSize == 0 && 0 < |chunk|
      requires offsets == map[] && strings == map[] && utf8s == map[]
      requires Pending(input, pos, stack).Some? && SameAll(input, xs, Pending(input, pos, stack).value)
      modifies `lo, `owed, `src, `first, `front, `mark, `left
      ensures Level() && lo == |chunk| == BodySize() && first == xs && front == chunk
    {
      hide *;
      lo, first, front := |chunk|, xs, chunk;
      owed, src, mark, left := map[lo := xs], map[], lo, |xs|;
      Started();
    }

    lemma Started()
      requires Fit(input) && OnPath(input, pos) && iterStart == pos <= |input| && stack == Values(rest) && deepness == 0
      requires !dontCheck && !tagTracked && chunkOffset == |chunk| && chunkSize == 0 && 0 < |chunk|
      requires offsets == map[] && strings == map[] && utf8s == map[] && lo == |chunk| && front == chunk
      requires owed == map[lo := first] && src == map[] && mark == lo && left == |first|
      requires Pending(input, pos, stack).Some? && SameAll(input, first, Pending(input, pos, stack).value)
      ensures Level() && lo == BodySize()
    {
      hide Sealed, Scan, Fit, OnPath, Pending, SameAll, Core;
      assert Body() == chunk;
      FreshSealed(chunk, first);
      FreshCore();
    }

    lemma FreshCore()
      requires Fit(input) && OnPath(input, pos) && iterStart == pos <= |input| && stack == Values(rest) && deepness == 0
      requires chunkOffset == |chunk| && chunkSize == 0 && 0 < |chunk| && Body() == chunk
      requires offsets == map[] && strings == map[] && utf8s == map[] && lo == |chunk| && front == chunk
      requires owed == map[lo := first] && src == map[]
      requires Pending(input, pos, stack).Some? && SameAll(input, first, Pending(input, pos, stack).value)
      ensures Core(false, false) && !Held(stack, false, false)
    {
      FreshStream(input, chunk, first);
      FlatPlain(rest);
      FlatJumps(input, rest);
      hide Scan, Fit, OnPath, Pending, SameAll, Stream, OffsetsOk, StringsOk, Shape, Mode, Held, Plain, JumpsOnPath;
    }

    method NewChunk() returns (varintLen: nat)
      modifies `chunk, `chunkOffset, `chunkSize, `nbElts
      ensures chunk == [0, REFN, ARRAY] + Write(inputElts) && chunkOffset == |chunk| && chunkSize == 0 && nbElts == 0
      ensures varintLen == |Write(inputElts)|
    {
      chunkOffset, chunkSize, nbElts := 1, 0, 0;
      chunk := [0];
      chunk := chunk + [REFN];
      chunkOffset := chunkOffset + 1;
      chunk := chunk + [ARRAY];
      chunkOffset := chunkOffset + 1;
      var count := SetVarint(inputElts);
      varintLen := |count|;
      chunk := chunk + count;
      chunkOffset := chunkOffset + varintLen;
    }

    /** Writes the number of elements over the larger count, padding it. */
    method CloseChunk(varintLen: nat) returns (body: seq<byte>)
      requires 1 <= varintLen && 3 + varintLen <= |chunk| && nbElts < Pow128(varintLen) && varintLen <= MAX_BYTES && nbElts < WORD
      ensures |body| == |chunk| && Read(body, 3) == Some((nbElts, 3 + varintLen))
      ensures forall j :: 0 <= j < |chunk| && !(3 <= j < 3 + varintLen) ==> body[j] == chunk[j]
    {
      var bytes := chunk;
      var buf := new byte[|bytes|](j requires 0 <= j < |bytes| => bytes[j]);
      UpdateVarint(buf, 3, 3 + varintLen - 1, nbElts);
      body := buf[..];
      FilledReads(body, 3, 3 + varintLen - 1, nbElts);
    }

    /** What is promised of a chunk that holds the elements from `done` on, n of them. */
    ghost predicate Promised(body: seq<byte>, done: nat, n: nat)
      reads this
    {
      && 0 < n && done + n <= |Elements(input)|
      && Parse(body, 1, [Item]) == Some(|body|)
      && LinksOk(body, 3 + |Write(inputElts)|)
      && forall d: nat :: HoldsElements(body, input, done, n, d)
    }

    lemma IdleRoot()
      requires Idle()
      ensures Splittable(input) && rest <= inputElts == |Elements(input)| <= MAX_COUNT
    {
    }

    /** The chunk in hand, with the elements it was to hold and those it holds. */
    ghost predicate Cut(done: nat)
      reads this
    {
      && Level() && Splittable(input) && iterStart == pos <= |input| && chunk == Body()
      && inputElts == |Elements(input)| <= MAX_COUNT && done + nbElts + rest == inputElts
      && first == Elements(input)[done..]
    }

    lemma CutSplit(done: nat)
      requires Cut(done)
      ensures Split(input, chunk, lo, owed, src) && lo in owed && |chunk| in owed && lo <= |chunk|
      ensures owed[lo] == first && owed[|chunk|] == first[nbElts..] == Elements(input)[inputElts - rest..]
      ensures |owed[|chunk|]| == rest && Sealed(chunk, lo, owed, mark, left)
    {
      hide Scan, SameAll, StringsOk, Pending, Shape, Mode, Held, OnPath, JumpsOnPath, Fit, OffsetsOk, Paid, Elements, Root;
      LevelOwed();
      ElementsLeft(input, chunk, lo, owed, src, nbElts);
    }

    lemma StillIdle(done: nat)
      requires Cut(done)
      ensures Idle()
    {
      CutSplit(done);
      LevelOwed();
      hide Scan, SameAll, StringsOk, Pending, Shape, Mode, Held, JumpsOnPath, Fit, OffsetsOk, Paid, Elements, Root, Split, OnPath, Stream;
      InvRange(false);
    }

    lemma Delivered(body: seq<byte>, done: nat)
      requires Cut(done) && 0 < nbElts && lo == 3 + |Write(inputElts)| && |body| == |chunk| && left == rest + 1
      requires chunk[1] == REFN && chunk[2] == ARRAY && Read(body, 3) == Some((nbElts, lo))
      requires forall j :: 0 <= j < |chunk| && !(3 <= j < lo) ==> body[j] == chunk[j]
      ensures Promised(body, done, nbElts)
      ensures Chain(body, lo, Items(nbElts)).Some? && Chain(body, lo, Items(nbElts)).value[nbElts - 1] == mark
      ensures Scan(body, 1) == Some((Open(40, 0), 2)) && Scan(body, 2) == Some((Open(43, nbElts), lo))
    {
      hide Scan, Fit, Paid, Elements, Root, Inv, Read, Write, LinksOk, Holds, Parse, Sealed, Chain;
      CutSplit(done);
      StreamKept(input, chunk, body, lo, owed, src);
      SealedSame(chunk, body, lo, owed, mark, left);
      RootFits(input);
      assert ChunkOf(input, body, lo, owed, src, nbElts);
      ChunkScan(input, body, lo, owed, src, nbElts);
      hide ChunkOf;
      LastBegins(input, body, lo, owed, src, nbElts, mark);
      ChunkParse(input, body, lo, owed, src, nbElts);
      ChunkLinks(input, body, lo, owed, src);
      var es := Elements(input)[done..done + nbElts];
      assert first[..nbElts] == es;
      forall d: nat
        ensures HoldsElements(body, input, done, nbElts, d)
      {
        ChunkMeaning(input, body, lo, owed, src, nbElts, d);
      }
    }

    /** Writes the front of the chunk, and what the machine writes behind it. */
    method FillChunk() returns (ok: bool, found: bool, varintLen: nat)
      requires Idle()
      modifies this
      ensures inputElts == old(inputElts) && rest <= old(rest) <= inputElts && varintLen == |Write(inputElts)|
      ensures MostBytes(input) < WORD ==> ok
      ensures ok ==> Cut(inputElts - old(rest)) && nbElts == old(rest) - rest
      ensures ok ==> lo == 3 + varintLen <= |chunk| && chunk[1] == REFN && chunk[2] == ARRAY
      ensures ok ==> (found <==> nbElts > 0) && (rest == 0 || (found && |chunk| - lo >= sizeLimit))
      ensures ok && nbElts > 0 ==> left == rest + 1
      ensures ok && nbElts > 1 ==> mark < lo + sizeLimit
    {
      hide Level, Elements, Root, Fit, Scan, Write, Energy, MostBytes, Sealed, Inv, Above, Splittable, OnPath, Pending, SameAll;
      IdleRoot();
      varintLen := OpenChunk();
      ok, found := ParseChunk();
      assert front[1] == REFN && front[2] == ARRAY;
    }

    /** The next chunk: it means the array of the next elements, in order; only the last may be smaller
        than the limit. */
    method NextChunk() returns (r: Chunked)
      requires Idle()
      modifies this
      ensures MostBytes(input) < WORD ==> !r.NoMemory?
      ensures !r.NoMemory? ==> Idle() && inputElts == old(inputElts)
      ensures r.Done? ==> rest == 0 == old(rest)
      ensures r.Chunk? ==> rest + r.count == old(rest) && Promised(r.body, inputElts - old(rest), r.count)
      ensures r.Chunk? ==> Sized(r.body, 3 + |Write(inputElts)|, r.count, sizeLimit, rest == 0)
      ensures r.Chunk? ==> Scan(r.body, 1) == Some((Open(40, 0), 2))
      ensures r.Chunk? ==> Scan(r.body, 2) == Some((Open(43, r.count), 3 + |Write(inputElts)|))
    {
      hide Promised, Write, Cut, Idle, MostBytes, Chain, Read, Scan;
      var ok, found, varintLen := FillChunk();
      if !ok {
        return NoMemory;
      }
      ghost var done := inputElts - old(rest);
      StillIdle(done);
      if !found {
        return Done;
      }
      CutCount(done);
      CountRoom(nbElts, inputElts);
      var body := CloseChunk(varintLen);
      Delivered(body, done);
      return Chunk(body, nbElts);
    }

    lemma CutCount(done: nat)
      requires Cut(done)
      ensures nbElts <= inputElts <= MAX_COUNT
    {
    }
  }

  // ----- whole runs -----

  /** Cuts a document into chunks.  The elements of all chunks, decoded one chunk after the other, are the
      elements of the document, decoded; only when a chunk could need 2^64 bytes may the splitter give up. */
  method SplitDocument(doc: seq<byte>, limit: nat) returns (ok: bool, chunks: seq<seq<byte>>)
    requires Splittable(doc)
    ensures MostBytes(doc) < WORD ==> ok
    ensures ok ==> forall d: nat :: Gathered(chunks, d) == TreesAt(doc, Elements(doc), d)
    ensures forall k :: 0 <= k < |chunks| ==> Parse(chunks[k], 1, [Item]) == Some(|chunks[k]|)
    ensures forall k :: 0 <= k < |chunks| ==>
      WellSized(chunks[k], 3 + |Write(|Elements(doc)|)|, limit, k == |chunks| - 1)
  {
    hide Elements, Root, Fit, Parse, LinksOk, Splitter.Idle, TreesAt, Gathered, HoldsElements, Write, MostBytes, Scan, Chain, Sized;
    var splitter := new Splitter(doc, limit);
    chunks := [];
    ghost var total := splitter.inputElts;
    StartsEmpty(doc);
    splitter.IdleRoot();
    while true
      invariant fresh(splitter) && splitter.Idle() && splitter.input == doc && splitter.inputElts == total == |Elements(doc)|
      invariant splitter.rest <= total
      invariant forall d: nat :: Gathered(chunks, d) == TreesAt(doc, Elements(doc)[..total - splitter.rest], d)
      invariant forall k :: 0 <= k < |chunks| ==> Parse(chunks[k], 1, [Item]) == Some(|chunks[k]|)
      invariant splitter.sizeLimit == limit
      invariant forall k :: 0 <= k < |chunks| ==>
        WellSized(chunks[k], 3 + |Write(total)|, limit, k == |chunks| - 1 && splitter.rest == 0)
      decreases splitter.rest
    {
      ghost var done := total - splitter.rest;
      var r := splitter.NextChunk();
      match r
      case NoMemory =>
        forall k | 0 <= k < |chunks|
          ensures WellSized(chunks[k], 3 + |Write(total)|, limit, k == |chunks| - 1)
        {
          SizedLast(chunks[k], 3 + |Write(total)|, limit);
        }
        return false, chunks;
      case Done =>
        assert Elements(doc)[..total] == Elements(doc);
        return true, chunks;
      case Chunk(body, count) =>
        AllGathered(doc, chunks, body, done, count);
        chunks := chunks + [body];
    }
  }

  /** The chunk is a reference to an array, and as large as it should be. */
  ghost predicate WellSized(body: seq<byte>, front: nat, limit: nat, last: bool) {
    && Scan(body, 1) == Some((Open(40, 0), 2)) && Scan(body, 2).Some? && Scan(body, 2).value.1 == front
    && Scan(body, 2).value.0.Open? && Scan(body, 2).value.0.tag == 43
    && Sized(body, front, Scan(body, 2).value.0.count, limit, last)
  }

  lemma SizedLast(body: seq<byte>, front: nat, limit: nat)
    ensures WellSized(body, front, limit, false) ==> WellSized(body, front, limit, true)
  {
    hide Scan, Chain;
  }

  lemma AllGathered(doc: seq<byte>, chunks: seq<seq<byte>>, body: seq<byte>, done: nat, count: nat)
    requires done + count <= |Elements(doc)|
    requires forall d: nat :: Gathered(chunks, d) == TreesAt(doc, Elements(doc)[..done], d)
    requires forall d: nat :: HoldsElements(body, doc, done, count, d)
    ensures forall d: nat :: Gathered(chunks + [body], d) == TreesAt(doc, Elements(doc)[..done + count], d)
  {
    hide Elements, Gathered, TreesAt, HoldsElements;
    forall d: nat
      ensures Gathered(chunks + [body], d) == TreesAt(doc, Elements(doc)[..done + count], d)
    {
      GatheredNext(doc, chunks, body, done, count, d);
    }
  }

  lemma StartsEmpty(doc: seq<byte>)
    ensures forall d: nat :: Gathered([], d) == TreesAt(doc, Elements(doc)[..0], d)
  {
  }
}
