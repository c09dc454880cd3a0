/** The Perl merger: documents are appended one by one to an output body, tag by tag, without being
    decoded.  Offsets are translated, repeated strings may become COPY and repeated class names OBJECTV,
    and an append that fails half-way is undone by the next operation. */
module Merger {
  import opened Varint
  import opened VarintIO
  import opened Wire
  import opened Mapping
  import opened MergerState
  import opened MergerResult
  import opened Faults
  import opened Depth
  import opened StrTable
  import opened Offsets
  import opened QuickSort

  /** How an operation ends: well, or by croaking at one of the checks of the source.  `Overrun` stands
      for reading past the end of the input, `Underrun` for reading in front of an arena of the string index;
      the source checks neither, and C leaves both undefined. */
  datatype Outcome = Ok | TooDeep | Ended | BadTag | BadVarint | BadOffset | NotString | BadCopy | Overrun | NoMemory
                   | Underrun

  /** One of the checks of the source, other than that of depth. */
  predicate Ordinary(r: Outcome) {
    !r.TooDeep? && !r.NoMemory? && !r.Underrun?
  }

  /** How full the two tables are: arenas left by the last purge, and entries. */
  datatype Occupancy = Occupancy(stringFloor: nat, strings: nat, classFloor: nat, classes: nat)

  /** No purge of either table would leave its arenas. */
  predicate Clear(o: Occupancy) {
    CanPurge(o.stringFloor, o.strings) && CanPurge(o.classFloor, o.classes)
  }

  class Merger {
    const hash: seq<byte> -> nat
    const dedupe: bool
    const maxDepth: nat
    ghost const mode: Mode := if dedupe then Shared else Verbatim

    var input: seq<byte>         // the body in hand; byte 0 is the byte before it
    var ipos: nat
    var out: seq<byte>           // the output body, likewise
    var tracked: seq<nat>        // stack of referred-to input offsets, the smallest on top
    var table: map<nat, nat>     // input offset -> output offset; never emptied
    var strings: seq<Entry>
    var classes: seq<Entry>
    var stringFloor: nat         // how many arenas the last purge left to each table
    var classFloor: nat
    var lastGood: nat            // where the document in hand began, or 0 when the last append succeeded
    var count: nat
    var depth: nat

    ghost var honest: bool       // every document so far was sound
    ghost var marks: set<nat>
    ghost var kept: set<nat>
    ghost var done: Ledger       // what has been merged
    ghost var m: map<nat, nat>
    ghost var img: map<nat, nat>
    ghost var targets: set<nat>
    ghost var rolled: seq<Occupancy>   // the tables at each rollback so far

    ghost predicate InRange(es: seq<Entry>)
      reads `out, `lastGood
    {
      forall e :: e in es ==>
        && 0 < e.len && e.offset + e.len <= |out|
        && (e.offset < lastGood ==> e.offset + e.len <= lastGood)
    }

    ghost predicate Basic()
      reads `input, `out, `lastGood, `strings, `classes
    {
      && 1 <= |input| && FIRST <= |out| && (lastGood == 0 || FIRST <= lastGood <= |out|)
      && InRange(strings) && InRange(classes) && Rising(strings) && Rising(classes)
      && (!dedupe ==> strings == [] && classes == [])
    }

    ghost function Base(): nat
      reads `out, `lastGood
    {
      if lastGood != 0 then lastGood else |out|
    }

    /** Holds at all times, also after a failed append. */
    ghost predicate Valid()
      reads `input, `out, `lastGood, `strings, `classes, `honest, `marks, `kept, `done
    {
      Basic() && (honest ==> Core(out, Base(), marks, kept, done, strings, classes, mode))
    }

    /** A document is being merged and has been translated up to i; offsets below lim are off the stack. */
    ghost predicate Ready(i: nat, lim: nat)
      reads `input, `out, `lastGood, `strings, `classes, `honest, `marks, `kept, `done
      reads `m, `img, `targets, `tracked, `table
    {
      && Valid() && lastGood != 0
      && (honest ==>
        && Current(input, 1, i, out, lastGood, marks, m, img, strings, classes, mode)
        && targets == Targets(input, 1) && StackOk(i, lim, tracked, table, img, targets))
    }

    // ----- the ghost side of carrying over one tag -----

    /** The tag at i has just been written behind `was`; offsets that named it now name v. */
    ghost method Carry(i: nat, was: seq<byte>, v: nat, strings0: seq<Entry>)
      requires Basic() && lastGood != 0 && honest && 0 < i
      requires Core(was, lastGood, marks, kept, done, strings, classes, mode)
      requires Current(input, 1, i, was, lastGood, marks, m, img, strings0, classes, mode)
      requires targets == Targets(input, 1) && StackOk(i, i + 1, tracked, table, img, targets)
      requires Scan(input, i).Some? && !IsObject(Scan(input, i).value.0) && ipos == Scan(input, i).value.1
      requires FlagsOnly(was, out, |was|, marks)
      requires Scan(out, |was|).Some? && Tracked(Scan(out, |was|).value.0, out, marks)
      requires forall e :: e in strings ==> e in strings0 || EntryOk(e, out, marks + {|was|})
      requires Local(input, i, out, marks + {|was|}, m[ipos := |out|], img[i := v])
      requires ImageOf(input, i, out, marks + {|was|}, m[ipos := |out|], v)
      requires |out| <= |was| + GROWTH * (ipos - i)
      requires !dedupe ==> v == |was|
      requires TextAt(input, i) ==> Scan(out, v).Some? && Scan(out, v).value.0 == Scan(input, i).value.0
      requires i in targets ==> i in table && table[i] == v
      modifies `marks, `m, `img
      ensures Ready(ipos, ipos)
    {
      hide Scan, Path, Local, ImageOf, Mapped, FlagsOnly, Tracked, IsObject;
      CoreGrows(was, out, lastGood, marks, kept, done, strings, classes, mode);
      EntriesStable(strings0, was, out, marks, marks + {|was|});
      EntriesStable(classes, was, out, marks, marks + {|was|});
      CurrentStep(input, 1, i, was, out, lastGood, marks, m, img, v, strings0, classes, strings, classes, mode);
      CurrentAt(input, 1, i, was, lastGood, marks, m, img, strings0, classes, mode);
      StackStep(i, v);
      marks := marks + {|was|};
      m := m[ipos := |out|];
      img := img[i := v];
    }

    lemma StackStep(i: nat, v: nat)
      requires Sound(input) && Path(input, 1, i) && Scan(input, i).Some? && ipos == Scan(input, i).value.1
      requires targets == Targets(input, 1) && StackOk(i, i + 1, tracked, table, img, targets)
      requires i in targets ==> i in table && table[i] == v
      requires i !in img
      ensures StackOk(ipos, ipos, tracked, table, img[i := v], targets)
    {
      hide Scan, Path, Sound, Targets;
      forall x | x in targets && i < x
        ensures ipos <= x
      {
        TargetsSound(input, 1, x) by { PathSelf(input, 1); }
        NoTargetInside(input, i, x);
      }
    }

    /** A tag whose bytes were copied; or a string whose bytes were copied and recorded. */
    ghost method CarryCopied(i: nat, was: seq<byte>, strings0: seq<Entry>)
      requires Basic() && lastGood != 0 && honest && 0 < i < ipos <= |input|
      requires Core(was, lastGood, marks, kept, done, strings, classes, mode)
      requires Current(input, 1, i, was, lastGood, marks, m, img, strings0, classes, mode)
      requires targets == Targets(input, 1) && StackOk(i, i + 1, tracked, table, img, targets)
      requires Scan(input, i).Some? && ipos == Scan(input, i).value.1 && Plain(Scan(input, i).value.0)
      requires Copied(input, i, ipos, was, out)
      requires forall e :: e in strings ==>
        e in strings0 || (e.offset == |was| && e.len == ipos - i && Scan(input, i).value.0.Text?)
      requires i in targets ==> i in table && table[i] == |was|
      modifies `marks, `m, `img
      ensures Ready(ipos, ipos)
    {
      hide Scan, Path, Local, ImageOf, Mapped, FlagsOnly, Core, Copied;
      CopiedScan(input, i, ipos, was, out, marks);
      CurrentAt(input, 1, i, was, lastGood, marks, m, img, strings0, classes, mode);
      assert 0 < |was| by { CoreNonempty(was); }
      PlainLocal(input, i, out, marks + {|was|}, m[ipos := |out|], img[i := |was|]);
      CopiedLength(was, i);
      Carry(i, was, |was|, strings0);
    }

    lemma CoreNonempty(was: seq<byte>)
      requires Core(was, lastGood, marks, kept, done, strings, classes, mode)
      ensures FIRST <= |was|
    {
    }

    lemma CopiedLength(was: seq<byte>, i: nat)
      requires Copied(input, i, ipos, was, out)
      ensures |out| == |was| + (ipos - i)
    {
    }

    /** A tag written afresh with a varint behind it: a count, or a link to the image of its target. */
    ghost method CarryWritten(i: nat, was: seq<byte>, tag: byte, n: nat)
      requires Basic() && lastGood != 0 && honest && 0 < i < ipos <= |input|
      requires Core(was, lastGood, marks, kept, done, strings, classes, mode)
      requires Current(input, 1, i, was, lastGood, marks, m, img, strings, classes, mode)
      requires targets == Targets(input, 1) && StackOk(i, i + 1, tracked, table, img, targets)
      requires Scan(input, i).Some? && ipos == Scan(input, i).value.1
      requires TakesNumber(tag) && n < WORD && i + 1 < ipos
      requires var t := Scan(input, i).value.0;
        || (t.Open? && !IsObject(t) && NumberToken(tag, n) == Some(t))
        || ((t.Copy? || t.Refer? || t.Alias? || t.ObjectV?) && t.target in img && img[t.target] == n
            && NumberToken(tag, n) == Some(t.(target := n)))
      requires FlagsOnly(was + [tag] + Write(n), out, |was + [tag] + Write(n)|, marks) && |out| == |was + [tag] + Write(n)|
      requires (n in marks && n < |was|) || Scan(input, i).value.0.Open?
      requires tag == REFP || tag == ALIAS ==> out[n] >= HIGH
      requires i in targets ==> i in table && table[i] == |was|
      modifies `marks, `m, `img
      ensures Ready(ipos, ipos)
    {
      hide Scan, Path, Local, ImageOf, Mapped, Core;
      CurrentAt(input, 1, i, was, lastGood, marks, m, img, strings, classes, mode);
      assert 0 < |was| by { CoreNonempty(was); }
      WrittenScan(was, tag, n, out, marks) by {
        CoreMarks(was, out, lastGood, marks, kept, done, strings, classes, mode);
      }
      if Scan(input, i).value.0.Open? {
        PlainLocal(input, i, out, marks + {|was|}, m[ipos := |out|], img[i := |was|]);
      } else {
        LinkLocal(input, i, out, marks + {|was|}, m[ipos := |out|], img[i := |was|]);
      }
      Carry(i, was, |was|, strings);
    }

    /** A string written as a COPY of an equal one at v. */
    ghost method CarryDeduped(i: nat, was: seq<byte>, v: nat)
      requires Basic() && lastGood != 0 && honest && 0 < i < ipos <= |input|
      requires Core(was, lastGood, marks, kept, done, strings, classes, mode)
      requires Current(input, 1, i, was, lastGood, marks, m, img, strings, classes, mode)
      requires targets == Targets(input, 1) && StackOk(i, i + 1, tracked, table, img, targets)
      requires Scan(input, i).Some? && ipos == Scan(input, i).value.1
      requires dedupe && TextTwin(Scan(input, i).value.0, was, v, |was|, marks) && Scan(was, v).value.0 == Scan(input, i).value.0
      requires out == was + [COPY] + Write(v)
      requires i in targets ==> i in table && table[i] == v
      modifies `marks, `m, `img
      ensures Ready(ipos, ipos)
    {
      hide Scan, Path, Local, ImageOf, Mapped, Core;
      CurrentAt(input, 1, i, was, lastGood, marks, m, img, strings, classes, mode);
      assert v < WORD by { CurrentBound(was, i); }
      WrittenScan(was, COPY, v, out, marks) by {
        CoreMarks(was, out, lastGood, marks, kept, done, strings, classes, mode);
      }
      CoreTags(was, out, lastGood, marks, kept, done, strings, classes, mode);
      DedupedLocal(input, i, out, marks + {|was|}, m[ipos := |out|], img[i := v]);
      Carry(i, was, v, strings);
    }

    lemma CurrentBound(was: seq<byte>, i: nat)
      requires Current(input, 1, i, was, lastGood, marks, m, img, strings, classes, mode)
      ensures |was| < WORD && Sound(input)
    {
      PathOrder(input, 1, i);
      hide Scan, Path, Local;
    }

    /** The common end of both ways to write an object: its tag is at the end of `was`, and offsets that
        named its class name now name v. */
    ghost method CarryObject(i: nat, was: seq<byte>, v: nat, marks': set<nat>, classes0: seq<Entry>)
      requires Basic() && lastGood != 0 && honest && 0 < i
      requires Core(out, lastGood, marks', kept, done, strings, classes, mode)
      requires Current(input, 1, i, was, lastGood, marks, m, img, strings, classes0, mode)
      requires targets == Targets(input, 1) && StackOk(i, i + 2, tracked, table, img, targets)
      requires Scan(input, i).Some? && IsObject(Scan(input, i).value.0) && Scan(input, i).value.1 == i + 1
      requires TextAt(input, i + 1) && ipos == Scan(input, i + 1).value.1
      requires SameTags(was, out, marks) && marks + {|was|} <= marks'
      requires forall e :: e in classes ==> e in classes0 || EntryOk(e, out, marks')
      requires Local(input, i, out, marks', m[ipos := |out|], img[i := |was|][i + 1 := v])
      requires ImageOf(input, i, out, marks', m[ipos := |out|], |was|)
      requires ImageOf(input, i + 1, out, marks', m[ipos := |out|], v)
      requires |out| <= |was| + GROWTH * (ipos - i)
      requires !dedupe ==> v == |was| + 1
      requires Scan(out, v).Some? && Scan(out, v).value.0 == Scan(input, i + 1).value.0
      requires i in targets ==> i in table && table[i] == |was|
      requires i + 1 in targets ==> i + 1 in table && table[i + 1] == v
      modifies `marks, `m, `img
      ensures Ready(ipos, ipos)
    {
      hide Scan, Path, Local, ImageOf, Mapped, FlagsOnly, IsObject, Core;
      EntriesStable(strings, was, out, marks, marks');
      EntriesStable(classes0, was, out, marks, marks');
      CurrentAt(input, 1, i, was, lastGood, marks, m, img, strings, classes0, mode);
      CurrentStepObject(input, 1, i, was, out, lastGood, marks, marks', m, img, v, strings, classes0, strings, classes, mode);
      StackStepObject(i, |was|, v);
      marks := marks';
      m := m[ipos := |out|];
      img := img[i := |was|][i + 1 := v];
    }

    lemma StackStepObject(i: nat, o: nat, v: nat)
      requires Sound(input) && Path(input, 1, i) && Scan(input, i).Some? && Scan(input, i).value.1 == i + 1
      requires Scan(input, i + 1).Some? && ipos == Scan(input, i + 1).value.1
      requires targets == Targets(input, 1) && StackOk(i, i + 2, tracked, table, img, targets)
      requires i in targets ==> i in table && table[i] == o
      requires i + 1 in targets ==> i + 1 in table && table[i + 1] == v
      requires forall x :: x in img ==> x < i
      ensures StackOk(ipos, ipos, tracked, table, img[i := o][i + 1 := v], targets)
    {
      hide Scan, Path, Sound, Targets;
      PathStep(input, 1, i);
      forall x | x in targets && i + 1 < x
        ensures ipos <= x
      {
        TargetsSound(input, 1, x) by { PathSelf(input, 1); }
        NoTargetInside(input, i + 1, x);
      }
    }

    /** OBJECT and the class name behind it, both copied. */
    ghost method CarryObjectCopied(i: nat, was: seq<byte>, objtag: byte, classes0: seq<Entry>)
      requires Basic() && lastGood != 0 && honest && 0 < i && i + 1 < ipos <= |input|
      requires Core(was, lastGood, marks, kept, done, strings, classes, mode)
      requires Current(input, 1, i, was, lastGood, marks, m, img, strings, classes0, mode)
      requires targets == Targets(input, 1) && StackOk(i, i + 2, tracked, table, img, targets)
      requires Scan(input, i) == Some((Open(objtag, 0), i + 1)) && (objtag == OBJECT || objtag == OBJECT_FREEZE)
      requires TextAt(input, i + 1) && ipos == Scan(input, i + 1).value.1
      requires out == was + [objtag] + input[i + 1..ipos]
      requires forall e :: e in classes ==>
        e in classes0 || (e.offset == |was| + 1 && e.len == ipos - (i + 1))
      requires i in targets ==> i in table && table[i] == |was|
      requires i + 1 in targets ==> i + 1 in table && table[i + 1] == |was| + 1
      modifies `marks, `m, `img
      ensures Ready(ipos, ipos)
    {
      hide Scan, Path, Local, ImageOf, Mapped, Core, Copied, FlagsOnly;
      var was1 := was + [objtag];
      ObjectCopiedScan(input, i, ipos, was, objtag, out);
      FlagsMore(was, was1, |was|, {}, marks);
      CurrentAt(input, 1, i, was, lastGood, marks, m, img, strings, classes0, mode);
      CoreMarks(was, was1, lastGood, marks, kept, done, strings, classes, mode);
      CoreGrows(was, was1, lastGood, marks, kept, done, strings, classes, mode);
      var marks1 := marks + {|was|};
      CopiedScan(input, i + 1, ipos, was1, out, marks1);
      CoreGrows(was1, out, lastGood, marks1, kept, done, strings, classes, mode);
      var marks' := marks1 + {|was1|};
      CoreNonempty(was);
      ObjectLocal(input, i, out, marks', m[ipos := |out|], img[i := |was|][i + 1 := |was1|]);
      CarryObject(i, was, |was1|, marks', classes0);
    }

    /** OBJECTV with the offset v of an equal class name. */
    ghost method CarryObjectDeduped(i: nat, was: seq<byte>, objtag: byte, v: nat)
      requires Basic() && lastGood != 0 && honest && 0 < i && i + 1 < ipos <= |input|
      requires Core(was, lastGood, marks, kept, done, strings, classes, mode)
      requires Current(input, 1, i, was, lastGood, marks, m, img, strings, classes, mode)
      requires targets == Targets(input, 1) && StackOk(i, i + 2, tracked, table, img, targets)
      requires Scan(input, i) == Some((Open(objtag, 0), i + 1)) && (objtag == OBJECT || objtag == OBJECT_FREEZE)
      requires TextAt(input, i + 1) && ipos == Scan(input, i + 1).value.1
      requires out == was + [if objtag == OBJECT then OBJECTV else OBJECTV_FREEZE] + Write(v)
      requires dedupe && TextTwin(Scan(input, i + 1).value.0, was, v, |was|, marks)
      requires Scan(was, v).value.0 == Scan(input, i + 1).value.0
      requires i in targets ==> i in table && table[i] == |was|
      requires i + 1 in targets ==> i + 1 in table && table[i + 1] == v
      modifies `marks, `m, `img
      ensures Ready(ipos, ipos)
    {
      hide Scan, Path, Local, ImageOf, Mapped, Core;
      CurrentAt(input, 1, i, was, lastGood, marks, m, img, strings, classes, mode);
      assert v < WORD by { CurrentBound(was, i); }
      CoreMarks(was, out, lastGood, marks, kept, done, strings, classes, mode);
      WrittenScan(was, if objtag == OBJECT then OBJECTV else OBJECTV_FREEZE, v, out, marks);
      CoreGrows(was, out, lastGood, marks, kept, done, strings, classes, mode);
      CoreNonempty(was);
      ObjectLocal(input, i, out, marks + {|was|}, m[ipos := |out|], img[i := |was|][i + 1 := v]);
      CarryObject(i, was, v, marks + {|was|}, classes);
    }

    /** An object whose class name is a COPY: only the COPY has been written. */
    ghost method CarryBorrowed(i: nat, was: seq<byte>, v: nat)
      requires Basic() && lastGood != 0 && honest && 0 < i && i + 1 < ipos <= |input|
      requires Core(was, lastGood, marks, kept, done, strings, classes, mode)
      requires Current(input, 1, i, was, lastGood, marks, m, img, strings, classes, mode)
      requires targets == Targets(input, 1) && StackOk(i, i + 2, tracked, table, img, targets)
      requires Scan(input, i).Some? && IsObject(Scan(input, i).value.0) && Scan(input, i).value.1 == i + 1
      requires BorrowedAt(input, i + 1) && ipos == Scan(input, i + 1).value.1
      requires var x := Scan(input, i + 1).value.0.target; x in img && img[x] == v && v in marks && v < |was|
      requires out == was + [COPY] + Write(v)
      requires i in targets ==> i in table && table[i] == |was|
      modifies `marks, `m, `img
      ensures Ready(ipos, ipos)
    {
      hide Scan, Path, Core, Current, BorrowedAt, IsObject, StackOk;
      CurrentAt(input, 1, i, was, lastGood, marks, m, img, strings, classes, mode);
      CurrentBound(was, i);
      BorrowedCarried(input, 1, i, was, out, lastGood, marks, kept, done, m, img, strings, classes, mode, v);
      StackStepBorrowed(i, |was|);
      marks := marks + {|was|};
      m := m[ipos := |out|];
      img := img[i := |was|];
    }

    lemma StackStepBorrowed(i: nat, o: nat)
      requires Sound(input) && Path(input, 1, i) && Scan(input, i).Some? && Scan(input, i).value.1 == i + 1
      requires BorrowedAt(input, i + 1) && ipos == Scan(input, i + 1).value.1
      requires targets == Targets(input, 1) && StackOk(i, i + 2, tracked, table, img, targets)
      requires i in targets ==> i in table && table[i] == o
      requires forall x :: x in img ==> x < i
      ensures StackOk(ipos, ipos, tracked, table, img[i := o], targets)
    {
      hide Scan, Path, Sound, Targets;
      PathStep(input, 1, i);
      PathSelf(input, 1);
      forall x | x in targets && i < x
        ensures ipos <= x
      {
        TargetsSound(input, 1, x);
        BorrowedNoTarget(input, 1, x);
        NoTargetInside(input, i, x);
        if i + 1 < x {
          NoTargetInside(input, i + 1, x);
        }
      }
    }

    // ----- reading and writing -----

    method PutTag(tag: byte)
      modifies `out, `ipos
      ensures out == old(out) + [tag] && ipos == old(ipos) + 1
    {
      out := out + [tag];
      ipos := ipos + 1;
    }

    method PutNumber(tag: byte, v: nat)
      modifies `out
      ensures out == old(out) + [tag] + Write(v)
    {
      out := out + [tag];
      var n: nat := v;
      while n >= HIGH
        invariant out + Write(n) == old(out) + [tag] + Write(v)
      {
        out := out + [n % HIGH + HIGH];
        n := n / HIGH;
      }
      out := out + [n];
    }

    method CopyContent(n: nat) returns (r: Outcome)
      modifies `out, `ipos
      ensures r == if old(ipos) + n <= |input| then Ok else Overrun
      ensures r.Ok? ==> ipos == old(ipos) + n && out == old(out) + input[old(ipos)..ipos]
      ensures !r.Ok? ==> out == old(out)
      ensures Ordinary(r)
    {
      if ipos + n > |input| {
        return Overrun;
      }
      out := out + input[ipos..ipos + n];
      ipos := ipos + n;
      return Ok;
    }

    method CopyVarint() returns (r: Outcome)
      modifies `out, `ipos
      ensures r.Ok? <==> Read(input, old(ipos)).Some?
      ensures r.Ok? ==> ipos == Read(input, old(ipos)).value.1 && out == old(out) + input[old(ipos)..ipos]
      ensures |out| >= |old(out)| && out[..|old(out)|] == old(out)
      ensures Ordinary(r)
    {
      var lshift := 0;
      while ipos < |input| && input[ipos] >= HIGH
        invariant old(ipos) <= ipos && (ipos <= |input| || ipos == old(ipos))
        invariant 0 <= lshift == 7 * (ipos - old(ipos)) < 70
        invariant out == old(out) + (if ipos <= |input| then input[old(ipos)..ipos] else [])
        invariant Digits(input, old(ipos), 0).Some? <==> Digits(input, ipos, ipos - old(ipos)).Some?
        invariant Digits(input, old(ipos), 0).Some? ==>
          Digits(input, old(ipos), 0).value.1 == Digits(input, ipos, ipos - old(ipos)).value.1
        decreases |input| - ipos
      {
        out := out + [input[ipos]];
        ipos := ipos + 1;
        lshift := lshift + 7;
        if lshift > 64 {
          return BadVarint;
        }
      }
      if ipos < |input| {
        out := out + [input[ipos]];
        ipos := ipos + 1;
        return Ok;
      }
      return BadVarint;
    }

    /** Reads a varint where a value is due. */
    method ReadNumber() returns (r: Outcome, v: nat)
      requires 0 < ipos <= |input|
      modifies `ipos
      ensures r.Ok? <==> Read(input, old(ipos)).Some?
      ensures r.Ok? ==> Read(input, old(ipos)) == Some((v, ipos))
      ensures Ordinary(r)
    {
      hide Read, Runaway;
      NoneAtEnd(input, ipos);
      var reader := new Reader(input, ipos);
      var got := reader.ReadUv();
      match got
      case Value(n) =>
        ipos := reader.pos;
        return Ok, n;
      case PastEnd =>
        return Overrun, 0;
      case _ =>
        return BadVarint, 0;
    }

    lemma NoneAtEnd(b: seq<byte>, p: nat)
      ensures p >= |b| ==> Read(b, p).None?
    {
    }

    /** An offset must lie before the current position. */
    method ReadOffset() returns (r: Outcome, v: nat)
      requires 0 < ipos <= |input|
      modifies `ipos
      ensures r.Ok? <==> Read(input, old(ipos)).Some? && Read(input, old(ipos)).value.0 < Read(input, old(ipos)).value.1
      ensures r.Ok? ==> Read(input, old(ipos)) == Some((v, ipos))
      ensures Ordinary(r)
    {
      r, v := ReadNumber();
      if r.Ok? && v >= ipos {
        return BadOffset, v;
      }
    }

    method LookupOffset(x: nat) returns (r: Outcome, v: nat)
      ensures r.Ok? <==> x in table && 0 < table[x] < |out|
      ensures r.Ok? ==> v == table[x]
      ensures Ordinary(r)
    {
      if x !in table || table[x] == 0 || table[x] >= |out| {
        return BadOffset, 0;
      }
      return Ok, table[x];
    }

    /** Is the offset of the current tag the next one referred to?  Then it is taken off the stack, and
        the table learns where the tag is about to be written. */
    method Track(delta: nat, ghost i: nat) returns (hit: bool)
      requires honest ==> StackOk(i, ipos, tracked, table, img, targets) && i <= ipos
      modifies `tracked, `table
      ensures honest ==> StackOk(i, ipos + 1, tracked, table, img, targets) && (hit <==> ipos in targets)
      ensures hit ==> ipos in table && table[ipos] == |out| + delta
      ensures forall x :: x != ipos ==> (x in table <==> x in old(table)) && (x in table ==> table[x] == old(table)[x])
    {
      hit := false;
      if honest {
        StackTop(i, ipos, tracked, table, img, targets);
      }
      if |tracked| > 0 && tracked[|tracked| - 1] == ipos {
        tracked := tracked[..|tracked| - 1];
        table := table[ipos := |out| + delta];
        hit := true;
      }
    }

    lemma ReadyValid(i: nat, lim: nat)
      requires Ready(i, lim)
      ensures Valid() && lastGood != 0
    {
    }

    lemma ReadyRange(i: nat, lim: nat)
      requires Ready(i, lim)
      ensures InRange(strings) && InRange(classes)
    {
    }

    lemma ReadyEntries(i: nat, lim: nat)
      requires Ready(i, lim) && honest
      ensures Entries(strings, out, marks) && Entries(classes, out, marks) && Marked(out, marks)
    {
    }

    lemma ReadyNoOther()
      requires Ready(ipos, ipos + 1)
      ensures honest && Scan(input, ipos).Some? ==> !Scan(input, ipos).value.0.Other?
    {
      hide Scan, Core, Current, Path, StackOk;
      if honest {
        NoOther(input, 1, ipos, out, lastGood, marks, m, img, strings, classes, mode);
      }
    }

    /** The check every value and every key starts with. */
    method TrackHere() returns (hit: bool)
      requires Ready(ipos, ipos)
      modifies `tracked, `table
      ensures Ready(ipos, ipos + 1)
      ensures honest ==> (hit <==> ipos in targets)
      ensures hit ==> ipos in table && table[ipos] == |out|
    {
      hide Scan, Core, Current, Path, StackOk;
      hit := Track(0, ipos);
    }

    /** A recorded string at v has the bytes of s. */
    ghost predicate Known(es: seq<Entry>, buf: seq<byte>, s: seq<byte>, v: nat) {
      exists e :: e in es && e.hash == hash(s) && Holds(e, buf, v, s)
    }

    /** What has been written for the string s: a COPY of an equal one that was recorded, if there is one and
        the length qualifies; else the string, which is then recorded. */
    ghost predicate StringPut(strings0: seq<Entry>, was: seq<byte>, s: seq<byte>)
      reads `out, `strings
    {
      || (Eligible(s) && strings == strings0 && exists v :: Known(strings0, was, s, v) && out == was + [COPY] + Write(v))
      || ((Eligible(s) ==> forall v :: !Known(strings0, was, s, v)) && out == was + s
          && strings == strings0 + if Eligible(s) then [Entry(hash(s), |s|, |was|)] else [])
    }

    /** The same for an object with the class name s. */
    ghost predicate ClassPut(objtag: byte, classes0: seq<Entry>, was: seq<byte>, s: seq<byte>)
      reads `out, `classes
    {
      || (Eligible(s) && classes == classes0
          && exists v :: Known(classes0, was, s, v) && out == was + [if objtag == OBJECT then OBJECTV else OBJECTV_FREEZE] + Write(v))
      || ((Eligible(s) ==> forall v :: !Known(classes0, was, s, v)) && out == was + [objtag] + s
          && classes == classes0 + if Eligible(s) then [Entry(hash(s), |s|, |was| + 1)] else [])
    }

    /** Looks for a recorded string with the same bytes in the output as they are now. */
    method Find(es: seq<Entry>, s: seq<byte>) returns (r: Option<nat>)
      requires InRange(es)
      ensures r.Some? ==> Known(es, out, s, r.value)
      ensures r.None? ==> forall v :: !Known(es, out, s, v)
    {
      var k := |es|;
      while k > 0
        invariant 0 <= k <= |es|
        invariant forall j :: k <= j < |es| && es[j].hash == hash(s) && es[j].len == |s| ==>
          out[es[j].offset..es[j].offset + es[j].len] != s
      {
        k := k - 1;
        var e := es[k];
        if e.hash == hash(s) && e.len == |s| && out[e.offset..e.offset + e.len] == s {
          assert Holds(e, out, e.offset, s);
          return Some(e.offset);
        }
      }
      return None;
    }

    predicate Eligible(s: seq<byte>) {
      dedupe && 3 < |s| <= 0xFFFF_FFFF
    }

    /** In figures: with deduplication a string of 4 to 2^32 - 1 bytes, tag and all, is written as the offset of
        an equal one if that was recorded; any other is written out. */
    lemma Shares(strings0: seq<Entry>, was: seq<byte>, s: seq<byte>)
      requires StringPut(strings0, was, s)
      ensures (exists v: nat :: out == was + [47] + Write(v) && Known(strings0, was, s, v) && strings == strings0)
              || (out == was + s && !(dedupe && 4 <= |s| <= 4294967295 && exists v :: Known(strings0, was, s, v)))
      ensures out == was + s && strings != strings0 ==> dedupe && 4 <= |s| <= 4294967295
      ensures dedupe && 4 <= |s| <= 4294967295 && (forall v :: !Known(strings0, was, s, v)) ==>
        out == was + s && strings == strings0 + [Entry(hash(s), |s|, |was|)]
    {
    }

    /** The same for class names. */
    lemma SharesNames(tag: byte, classes0: seq<Entry>, was: seq<byte>, s: seq<byte>)
      requires tag in {44, 50} && ClassPut(tag, classes0, was, s)
      ensures (exists v: nat :: out == was + [tag + 1] + Write(v) && Known(classes0, was, s, v) && classes == classes0)
              || (out == was + [tag] + s && !(dedupe && 4 <= |s| <= 4294967295 && exists v :: Known(classes0, was, s, v)))
      ensures dedupe && 4 <= |s| <= 4294967295 && (forall v :: !Known(classes0, was, s, v)) ==>
        out == was + [tag] + s && classes == classes0 + [Entry(hash(s), |s|, |was| + 1)]
    {
    }

    // ----- strings -----

    /** The string at ipos becomes a COPY of the equal one at v. */
    method PutDeduped(length: nat, hit: bool, v: nat)
      requires 0 < ipos && 0 < length && ipos + length <= |input| && Ready(ipos, ipos + 1)
      requires honest ==> (hit <==> ipos in targets)
      requires honest ==> TextAt(input, ipos) && Scan(input, ipos).value.1 == ipos + length
      requires honest ==> dedupe && TextTwin(Scan(input, ipos).value.0, out, v, |out|, marks)
      requires honest ==> Scan(out, v).value.0 == Scan(input, ipos).value.0
      modifies `ipos, `out, `table, `marks, `m, `img
      ensures ipos == old(ipos) + length && Ready(ipos, ipos)
      ensures out == old(out) + [COPY] + Write(v)
    {
      hide Scan, Core, Current, Path, TextTwin;
      var i := ipos;
      ghost var was := out;
      PutNumber(COPY, v);
      ipos := ipos + length;
      if hit {
        table := table[i := v];
      }
      if honest {
        CarryDeduped(i, was, v);
      }
    }

    /** The string at ipos is copied and, if its length qualifies, recorded. */
    method PutCopied(length: nat, record: bool)
      requires record ==> dedupe
      requires 0 < ipos && 0 < length && ipos + length <= |input| && Ready(ipos, ipos + 1)
      requires honest ==> TextAt(input, ipos) && Scan(input, ipos).value.1 == ipos + length
      requires honest && ipos in targets ==> ipos in table && table[ipos] == |out|
      modifies `ipos, `out, `strings, `marks, `m, `img
      ensures ipos == old(ipos) + length && Ready(ipos, ipos)
      ensures out == old(out) + input[old(ipos)..ipos]
      ensures strings == old(strings) + if record then [Entry(hash(input[old(ipos)..ipos]), length, |old(out)|)] else []
    {
      hide Scan, Core, Current, Path, StackOk, Copied, TextAt, Plain;
      ghost var i, was, strings0 := ipos, out, strings;
      if record {
        var e := Entry(hash(input[ipos..ipos + length]), length, |out|);
        if honest {
          CoreRecords(out, lastGood, marks, kept, done, strings, classes, mode, e);
        }
        strings := strings + [e];
      }
      var r := CopyContent(length);
      if honest {
        TextPlain(input, i);
        CopiedHere(input, i, ipos, was, out);
        CarryCopied(i, was, strings0);
      }
    }

    /** The string at ipos, tag and all, is `length` bytes long: copied, or replaced by a COPY. */
    method PutString(length: nat, hit: bool) returns (r: Outcome)
      requires 0 < ipos && 0 < length && Ready(ipos, ipos + 1)
      requires honest ==> (hit <==> ipos in targets)
      requires hit ==> ipos in table && table[ipos] == |out|
      requires honest && ipos + length <= |input| ==> TextAt(input, ipos) && Scan(input, ipos).value.1 == ipos + length
      modifies `ipos, `out, `table, `strings, `marks, `m, `img
      ensures Valid() && lastGood != 0
      ensures r == if old(ipos) + length <= |input| then Ok else Overrun
      ensures r.Ok? ==> ipos == old(ipos) + length && Ready(ipos, ipos)
      ensures r.Ok? ==> StringPut(old(strings), old(out), input[old(ipos)..ipos])
      ensures Ordinary(r)
    {
      hide Scan, Core, Current, Path, StackOk, TextTwin, EntryOk, Entries, Basic, Valid, Ready, Holds;
      ReadyValid(ipos, ipos + 1);
      if ipos + length > |input| {
        return Overrun;
      }
      r := Ok;
      var s := input[ipos..ipos + length];
      var found := None;
      if Eligible(s) {
        assert InRange(strings) by { ReadyRange(ipos, ipos + 1); }
        found := Find(strings, s);
      }
      match found
      case None =>
        PutCopied(length, Eligible(s));
        ReadyValid(ipos, ipos);
      case Some(v) =>
        if honest {
          EntryTwin(strings, input, ipos, out, v, marks, s) by { ReadyEntries(ipos, ipos + 1); }
          assert dedupe by { assert Eligible(s); }
        }
        PutDeduped(length, hit, v);
        ReadyValid(ipos, ipos);
    }

    method MergeShortBinary(tag: byte, hit: bool) returns (r: Outcome)
      requires 0 < ipos < |input| && tag == input[ipos] % HIGH && tag >= SHORT_BINARY && Ready(ipos, ipos + 1)
      requires honest ==> (hit <==> ipos in targets)
      requires hit ==> ipos in table && table[ipos] == |out|
      modifies `ipos, `out, `table, `strings, `marks, `m, `img
      ensures Valid() && lastGood != 0
      ensures honest ==> (r.Ok? <==> Scan(input, old(ipos)).Some?)
      ensures r.Ok? ==> old(ipos) < ipos <= |input| && Ready(ipos, ipos)
      ensures r.Ok? && honest ==> ipos == Scan(input, old(ipos)).value.1
      ensures r.Ok? ==> StringPut(old(strings), old(out), input[old(ipos)..ipos])
      ensures Ordinary(r)
    {
      hide Scan, Core, Current, StackOk;
      ShortScan(input, ipos);
      r := PutString(tag - SHORT_BINARY + 1, hit);
    }

    method MergeBinaryUtf8(hit: bool) returns (r: Outcome)
      requires 0 < ipos < |input| && Ready(ipos, ipos + 1)
      requires input[ipos] % HIGH == BINARY || input[ipos] % HIGH == STR_UTF8
      requires honest ==> (hit <==> ipos in targets)
      requires hit ==> ipos in table && table[ipos] == |out|
      modifies `ipos, `out, `table, `strings, `marks, `m, `img
      ensures Valid() && lastGood != 0
      ensures honest ==> (r.Ok? <==> Scan(input, old(ipos)).Some?)
      ensures r.Ok? ==> old(ipos) < ipos <= |input| && Ready(ipos, ipos)
      ensures r.Ok? && honest ==> ipos == Scan(input, old(ipos)).value.1
      ensures r.Ok? ==> StringPut(old(strings), old(out), input[old(ipos)..ipos])
      ensures Ordinary(r)
    {
      hide Scan, Core, Current, StackOk;
      TextScan(input, ipos);
      var start := ipos;
      ipos := ipos + 1;
      var length;
      r, length := ReadNumber();
      if !r.Ok? {
        return;
      }
      if ipos + length > |input| {
        return Ended;
      }
      var total := length + (ipos - start);
      ipos := start;
      r := PutString(total, hit);
    }

    // ----- links -----

    predicate IsLink(tag: int) {
      tag == COPY || tag == REFP || tag == ALIAS || tag == OBJECTV || tag == OBJECTV_FREEZE
    }

    /** What is known of the link at i once its offset has been read and looked up. */
    ghost predicate LinkTo(i: nat, tag: byte, v: nat)
      reads this
    {
      && Scan(input, i).Some?
      && var t := Scan(input, i).value.0;
      && (t.Copy? || t.Refer? || t.Alias? || t.ObjectV?)
      && t.target in img && img[t.target] == v && v in marks && v < |out| && v < WORD
      && NumberToken(tag, v) == Some(t.(target := v))
      && (t.Copy? ==> TextAt(out, v))
    }

    /** Reads the offset of the link at ipos and translates it. */
    method ReadTarget(tag: byte) returns (r: Outcome, v: nat)
      requires 0 < ipos < |input| && tag == input[ipos] % HIGH && IsLink(tag) && Ready(ipos, ipos + 1)
      modifies `ipos
      ensures Valid()
      ensures r.Ok? ==> v < |out| && old(ipos) + 1 < ipos <= |input|
      ensures honest ==> (r.Ok? <==> Scan(input, old(ipos)).Some?)
      ensures honest && r.Ok? ==> ipos == Scan(input, old(ipos)).value.1 && LinkTo(old(ipos), tag, v)
      ensures Ordinary(r)
    {
      hide Scan, Core, Current, Path, StackOk;
      ghost var i := ipos;
      ipos := ipos + 1;
      var x;
      r, x := ReadOffset();
      v := 0;
      if honest {
        LinkScan(input, i, tag);
        if Scan(input, i).Some? {
          LinkKnown(input, 1, i, out, lastGood, marks, m, img, strings, classes, mode, Read(input, i + 1).value.0, tracked, table);
          CoreMarks(out, out, lastGood, marks, kept, done, strings, classes, mode);
          CurrentBound(out, i);
        }
      }
      if r.Ok? {
        r, v := LookupOffset(x);
      }
    }

    /** Writes the link at i with its new offset v, and flags what a REFP or ALIAS names. */
    method PutLink(tag: byte, v: nat, ghost i: nat)
      requires Ready(i, i + 1) && 0 < i && i + 1 < ipos <= |input| && IsLink(tag) && v < |out|
      requires honest ==> LinkTo(i, tag, v) && ipos == Scan(input, i).value.1
      requires honest && i in targets ==> i in table && table[i] == |out|
      modifies `out, `marks, `m, `img
      ensures Ready(ipos, ipos)
    {
      hide Scan, Core, Current, Path, StackOk;
      ghost var was := out;
      PutNumber(tag, v);
      if tag == REFP || tag == ALIAS {
        out := out[v := if out[v] < HIGH then out[v] + HIGH else out[v]];
      }
      if honest {
        CarryWritten(i, was, tag, v);
      }
    }

    /** A tag with an offset.  Where only a string may stand, the image must be one. */
    method MergeLink(tag: byte, textOnly: bool) returns (r: Outcome)
      requires 0 < ipos < |input| && tag == input[ipos] % HIGH && IsLink(tag) && Ready(ipos, ipos + 1)
      requires textOnly ==> tag == COPY
      requires honest && ipos in targets ==> ipos in table && table[ipos] == |out|
      modifies `ipos, `out, `marks, `m, `img
      ensures Valid() && lastGood != 0
      ensures honest ==> (r.Ok? <==> Scan(input, old(ipos)).Some?)
      ensures r.Ok? ==> old(ipos) < ipos <= |input| && Ready(ipos, ipos)
      ensures r.Ok? && honest ==> ipos == Scan(input, old(ipos)).value.1
      ensures Ordinary(r)
    {
      hide Scan, Core, Current, Path, StackOk;
      ghost var i := ipos;
      var v;
      r, v := ReadTarget(tag);
      if !r.Ok? {
        return;
      }
      if textOnly {
        if honest {
          TextTag(out, v);
        }
        var newtag := out[v];
        if newtag != BINARY && newtag != STR_UTF8 && newtag < SHORT_BINARY {
          return BadCopy;
        }
      }
      PutLink(tag, v, i);
    }

    /** Where a hash key or a pattern is due: a string, or a COPY of one. */
    method MergeStringish() returns (r: Outcome)
      requires 0 < ipos && Ready(ipos, ipos)
      modifies `ipos, `out, `tracked, `table, `strings, `marks, `m, `img
      ensures Valid() && lastGood != 0
      ensures r.Ok? ==> old(ipos) < ipos <= |input| && Ready(ipos, ipos)
      ensures r.Ok? && honest ==> Parse(input, old(ipos), [Key]) == Some(ipos)
      ensures honest && Parse(input, old(ipos), [Key]).Some? ==> r.Ok?
      ensures Ordinary(r)
    {
      hide Scan, Core, Current, Path, StackOk, Parse;
      ParseKey(input, ipos);
      if ipos >= |input| {
        return Ended;
      }
      var tag := input[ipos] % HIGH;
      StringTag(input, ipos);
      var hit := TrackHere();
      if tag >= SHORT_BINARY {
        r := MergeShortBinary(tag, hit);
      } else if tag == BINARY || tag == STR_UTF8 {
        r := MergeBinaryUtf8(hit);
      } else if tag == COPY {
        r := MergeLink(tag, true);
      } else {
        r := NotString;
      }
    }

    // ----- objects -----

    /** The object at i, whose class name of `total` bytes stands at ipos, becomes an OBJECTV. */
    method PutClassDeduped(objtag: byte, total: nat, hit: bool, v: nat, ghost i: nat)
      requires 0 < i && ipos == i + 1 && 0 < total && ipos + total <= |input| && Ready(i, i + 2)
      requires honest ==> Scan(input, i) == Some((Open(objtag, 0), i + 1)) && (hit <==> i + 1 in targets)
      requires objtag == OBJECT || objtag == OBJECT_FREEZE
      requires honest ==> TextAt(input, ipos) && Scan(input, ipos).value.1 == ipos + total
      requires honest ==> dedupe && TextTwin(Scan(input, ipos).value.0, out, v, |out|, marks)
      requires honest ==> Scan(out, v).value.0 == Scan(input, ipos).value.0
      requires honest && i in targets ==> i in table && table[i] == |out|
      modifies `ipos, `out, `table, `marks, `m, `img
      ensures ipos == old(ipos) + total && Ready(ipos, ipos)
      ensures out == old(out) + [if objtag == OBJECT then OBJECTV else OBJECTV_FREEZE] + Write(v)
    {
      hide Scan, Core, Current, Path, TextTwin;
      ghost var was := out;
      PutNumber(if objtag == OBJECT then OBJECTV else OBJECTV_FREEZE, v);
      if hit {
        table := table[ipos := v];
      }
      ipos := ipos + total;
      if honest {
        CarryObjectDeduped(i, was, objtag, v);
      }
    }

    /** The object at i is copied, tag and class name. */
    method PutClassCopied(objtag: byte, total: nat, record: bool, ghost i: nat)
      requires record ==> dedupe
      requires 0 < i && ipos == i + 1 && 0 < total && ipos + total <= |input| && Ready(i, i + 2)
      requires honest ==> Scan(input, i) == Some((Open(objtag, 0), i + 1))
      requires objtag == OBJECT || objtag == OBJECT_FREEZE
      requires honest ==> TextAt(input, ipos) && Scan(input, ipos).value.1 == ipos + total
      requires honest && i in targets ==> i in table && table[i] == |out|
      requires honest && i + 1 in targets ==> i + 1 in table && table[i + 1] == |out| + 1
      modifies `ipos, `out, `classes, `marks, `m, `img
      ensures ipos == old(ipos) + total && Ready(ipos, ipos)
      ensures out == old(out) + [objtag] + input[old(ipos)..ipos]
      ensures classes == old(classes) + if record then [Entry(hash(input[old(ipos)..ipos]), total, |old(out)| + 1)] else []
    {
      hide Scan, Core, Current, StackOk, Path, Basic;
      ghost var was, classes0 := out, classes;
      ClassBasics(i);
      var e := Entry(hash(input[ipos..ipos + total]), total, |out| + 1);
      WriteClass(objtag, total, record, e);
      if honest {
        if record {
          CoreRecords(was, lastGood, marks, kept, done, strings, classes0, mode, e);
        }
        CarryObjectCopied(i, was, objtag, classes0);
      }
    }

    lemma ClassBasics(i: nat)
      requires Ready(i, i + 2)
      ensures Basic() && lastGood != 0 && |out| >= lastGood
    {
    }

    method WriteClass(objtag: byte, total: nat, record: bool, e: Entry)
      requires Basic() && lastGood != 0 && 0 < total && ipos + total <= |input| && (record ==> dedupe)
      requires e.offset == |out| + 1 && e.len == total
      modifies `ipos, `out, `classes
      ensures Basic() && ipos == old(ipos) + total && out == old(out) + [objtag] + input[old(ipos)..ipos]
      ensures classes == if record then old(classes) + [e] else old(classes)
    {
      out := out + [objtag];
      if record {
        classes := classes + [e];
      }
      var r := CopyContent(total);
    }

    /** The class name at ipos, `total` bytes with its tag, of the object at i. */
    method PutClass(objtag: byte, total: nat, hit: bool, ghost i: nat)
      requires 0 < i && ipos == i + 1 && 0 < total && ipos + total <= |input| && Ready(i, i + 2)
      requires honest ==> Scan(input, i) == Some((Open(objtag, 0), i + 1)) && (hit <==> i + 1 in targets)
      requires objtag == OBJECT || objtag == OBJECT_FREEZE
      requires honest ==> TextAt(input, ipos) && Scan(input, ipos).value.1 == ipos + total
      requires honest && i in targets ==> i in table && table[i] == |out|
      requires hit ==> i + 1 in table && table[i + 1] == |out| + 1
      modifies `ipos, `out, `table, `classes, `marks, `m, `img
      ensures ipos == old(ipos) + total && Ready(ipos, ipos)
      ensures ClassPut(objtag, old(classes), old(out), input[old(ipos)..ipos])
    {
      hide Scan, Core, Current, Path, StackOk, TextTwin, EntryOk, Entries, Basic, Valid, Ready, Holds;
      var s := input[ipos..ipos + total];
      var found := None;
      if Eligible(s) {
        assert InRange(classes) by { ReadyRange(i, i + 2); }
        found := Find(classes, s);
      }
      match found
      case None =>
        PutClassCopied(objtag, total, Eligible(s), i);
      case Some(v) =>
        if honest {
          EntryTwin(classes, input, ipos, out, v, marks, s) by { ReadyEntries(i, i + 2); }
          assert dedupe by { assert Eligible(s); }
        }
        PutClassDeduped(objtag, total, hit, v, i);
    }

    /** The class name, spelled out, of the object at i. */
    method MergeClass(objtag: byte, hit: bool, ghost i: nat) returns (r: Outcome)
      requires 0 < i && ipos == i + 1 < |input| && Ready(i, i + 2)
      requires var s := input[ipos] % HIGH; s >= SHORT_BINARY || s == BINARY || s == STR_UTF8
      requires honest ==> Scan(input, i) == Some((Open(objtag, 0), i + 1)) && (hit <==> i + 1 in targets)
      requires honest ==> TextAt(input, ipos)
      requires objtag == OBJECT || objtag == OBJECT_FREEZE
      requires honest && i in targets ==> i in table && table[i] == |out|
      requires hit ==> i + 1 in table && table[i + 1] == |out| + 1
      modifies `ipos, `out, `table, `classes, `marks, `m, `img
      ensures Valid() && lastGood != 0
      ensures r.Ok? ==> old(ipos) < ipos <= |input| && Ready(ipos, ipos)
      ensures TextAt(input, old(ipos)) ==> r.Ok? && ipos == Scan(input, old(ipos)).value.1
      ensures r.Ok? ==> ClassPut(objtag, old(classes), old(out), input[old(ipos)..ipos])
      ensures Ordinary(r)
    {
      hide Scan, Core, Current, Path, StackOk, Ready, Valid, Basic, ClassPut;
      ReadyValid(i, i + 2);
      var strtag := input[ipos] % HIGH;
      var start := ipos;
      var total := strtag - SHORT_BINARY + 1;
      if strtag >= SHORT_BINARY {
        ShortScan(input, start);
      } else {
        TextScan(input, start);
        ipos := ipos + 1;
        var length;
        r, length := ReadNumber();
        if !r.Ok? {
          return;
        }
        total := length + (ipos - start);
        ipos := start;
      }
      if ipos + total > |input| {
        return Overrun;
      }
      PutClass(objtag, total, hit, i);
      ReadyValid(ipos, ipos);
      r := Ok;
    }

    /** Reads the COPY that is the class name of the object at i, and translates it. */
    method ReadName(ghost i: nat) returns (r: Outcome, v: nat)
      requires 0 < i && ipos == i + 1 < |input| && input[ipos] % HIGH == COPY && Ready(i, i + 2)
      requires honest ==> Scan(input, i).Some? && IsObject(Scan(input, i).value.0) && Scan(input, i).value.1 == i + 1
      requires honest ==> BorrowedAt(input, ipos)
      modifies `ipos
      ensures Ordinary(r) && (r.Ok? ==> old(ipos) < ipos <= |input| && v < |out|)
      ensures honest ==> r.Ok? && ipos == Scan(input, i + 1).value.1
      ensures honest ==>
        var x := Scan(input, i + 1).value.0.target; x in img && img[x] == v && v in marks
    {
      hide Scan, Core, Current, Path, StackOk, BorrowedAt, Targets;
      if honest {
        BorrowedScan(input, ipos);
        LinkScan(input, ipos, COPY);
        BorrowedKnown(i);
      }
      var x;
      ipos := ipos + 1;
      v := 0;
      r, x := ReadOffset();
      if !r.Ok? {
        return;
      }
      r, v := LookupOffset(x);
      if !r.Ok? {
        return;
      }
      var newtag := out[v];
      if newtag != BINARY && newtag != STR_UTF8 && newtag < SHORT_BINARY {
        return BadCopy, v;
      }
    }

    /** A class name that is a COPY, of the object at i.  The source writes the COPY and not the object tag
        before it. */
    method MergeClassCopy(ghost i: nat) returns (r: Outcome, ghost v: nat)
      requires 0 < i && ipos == i + 1 < |input| && input[ipos] % HIGH == COPY && Ready(i, i + 2)
      requires honest ==> Scan(input, i).Some? && IsObject(Scan(input, i).value.0) && Scan(input, i).value.1 == i + 1
      requires honest ==> BorrowedAt(input, ipos)
      requires honest && i in targets ==> i in table && table[i] == |out|
      modifies `ipos, `out, `marks, `m, `img
      ensures Valid() && lastGood != 0
      ensures r.Ok? ==> old(ipos) < ipos <= |input| && Ready(ipos, ipos) && out == old(out) + [COPY] + Write(v)
      ensures honest ==> r.Ok? && ipos == Scan(input, old(ipos)).value.1
      ensures Ordinary(r)
    {
      hide Scan, Core, Current, Path, StackOk, BorrowedAt, IsObject;
      ghost var was := out;
      var to;
      r, to := ReadName(i);
      v := to;
      if !r.Ok? {
        return;
      }
      PutNumber(COPY, to);
      if honest {
        CarryBorrowed(i, was, to);
      }
    }

    /** What a COPY that is a class name leads to. */
    lemma BorrowedKnown(i: nat)
      requires 0 < i && honest && Ready(i, i + 2) && i + 1 < |input|
      requires Scan(input, i).Some? && IsObject(Scan(input, i).value.0) && Scan(input, i).value.1 == i + 1
      requires BorrowedAt(input, i + 1)
      ensures var x := Scan(input, i + 1).value.0.target;
              && 0 < x < i && x in table && x in img && table[x] == img[x] && img[x] in marks && 0 < img[x] < |out|
              && TextAt(out, img[x])
      ensures var s := out[img[Scan(input, i + 1).value.0.target]]; s == BINARY || s == STR_UTF8 || s >= SHORT_BINARY
    {
      hide Scan, Path, StackOk, Core;
      BorrowedTarget(input, 1, i, out, lastGood, marks, m, img, strings, classes, mode, tracked, table);
      TextTag(out, img[Scan(input, i + 1).value.0.target]);
      CoreMarks(out, out, lastGood, marks, kept, done, strings, classes, mode);
    }

    /** An object tag and its class name.  Where the class name is itself a COPY, only the COPY is written;
        `v` is then the offset it carries. */
    method MergeObjectHead(objtag: byte) returns (r: Outcome, ghost v: nat)
      requires 0 < ipos < |input| && objtag == input[ipos] % HIGH && Ready(ipos, ipos + 1)
      requires objtag == OBJECT || objtag == OBJECT_FREEZE
      requires honest && ipos in targets ==> ipos in table && table[ipos] == |out|
      modifies `ipos, `out, `tracked, `table, `classes, `marks, `m, `img
      ensures Valid() && lastGood != 0
      ensures r.Ok? ==> old(ipos) + 1 < ipos <= |input| && Ready(ipos, ipos)
      ensures honest ==> r.Ok? && Scan(input, old(ipos)) == Some((Open(objtag, 0), old(ipos) + 1))
      ensures honest ==> NamedTo(old(ipos) + 1, ipos)
      ensures TextAt(input, old(ipos) + 1) ==>
        old(ipos) + 1 < |input| && r.Ok? && ipos == Scan(input, old(ipos) + 1).value.1 && input[old(ipos) + 1] % HIGH != COPY
      ensures r.Ok? ==> if input[old(ipos) + 1] % HIGH == COPY then out == old(out) + [COPY] + Write(v) && classes == old(classes)
                        else ClassPut(objtag, old(classes), old(out), input[old(ipos) + 1..ipos])
      ensures Ordinary(r)
    {
      hide Scan, Core, Current, Path, StackOk;
      ghost var i := ipos;
      v := 0;
      if honest {
        ObjectClass(input, 1, i, out, lastGood, marks, m, img, strings, classes, mode);
      }
      ipos := ipos + 1;
      NameTag(ipos);
      if ipos >= |input| {
        return Overrun, 0;
      }
      var strtag := input[ipos] % HIGH;
      var hit := Track(1, i);
      if strtag >= SHORT_BINARY || strtag == BINARY || strtag == STR_UTF8 {
        r := MergeClass(objtag, hit, i);
      } else if strtag == COPY {
        r, v := MergeClassCopy(i);
      } else {
        r := NotString;
      }
    }

    lemma NameTag(q: nat)
      ensures TextAt(input, q) ==> q < |input|
      ensures TextAt(input, q) ==>
        var t := input[q] % HIGH; t >= SHORT_BINARY || t == BINARY || t == STR_UTF8
    {
      if q < |input| && Scan(input, q).Some? {
        StringCase(input, q);
      }
    }

    /** A class name begins at q and ends at e. */
    predicate NamedTo(q: nat, e: nat)
      reads `input
    {
      Scan(input, q).Some? && Stringish(Scan(input, q).value.0) && Scan(input, q).value.1 == e
    }

    // ----- single tags -----

    /** A tag without payload; the track flag is not copied. */
    method PutBare(tag: byte)
      requires 0 < ipos < |input| && tag == input[ipos] % HIGH && Ready(ipos, ipos + 1)
      requires honest ==> Scan(input, ipos).Some? && Scan(input, ipos).value.1 == ipos + 1 && Plain(Scan(input, ipos).value.0)
      requires honest && ipos in targets ==> ipos in table && table[ipos] == |out|
      modifies `ipos, `out, `marks, `m, `img
      ensures ipos == old(ipos) + 1 && Ready(ipos, ipos)
    {
      hide Scan, Core, Current, Path, StackOk;
      ghost var i, was := ipos, out;
      PutTag(tag);
      if honest {
        assert Copied(input, i, ipos, was, out);
        CarryCopied(i, was, strings);
      }
    }

    /** A number, a float or a constant. */
    method MergeLeaf(tag: byte) returns (r: Outcome)
      requires 0 < ipos < |input| && tag == input[ipos] % HIGH && IsLeaf(tag) && Ready(ipos, ipos + 1)
      requires honest && ipos in targets ==> ipos in table && table[ipos] == |out|
      modifies `ipos, `out, `marks, `m, `img
      ensures Valid() && lastGood != 0
      ensures honest ==> (r.Ok? <==> Scan(input, old(ipos)).Some?)
      ensures r.Ok? ==> old(ipos) < ipos <= |input| && Ready(ipos, ipos)
      ensures r.Ok? && honest ==> ipos == Scan(input, old(ipos)).value.1
      ensures Ordinary(r)
    {
      hide Scan, Core, Current, Path, StackOk;
      LeafScan(input, ipos);
      if tag == VARINT || tag == ZIGZAG {
        r := MergeVarint(tag);
      } else if tag == FLOAT {
        r := MergeFixed(5);
      } else if tag == DOUBLE {
        r := MergeFixed(9);
      } else if tag == LONG_DOUBLE {
        r := MergeFixed(17);
      } else {
        PutBare(tag);
        r := Ok;
      }
    }

    method MergeFixed(n: nat) returns (r: Outcome)
      requires 0 < ipos < |input| && 0 < n && Ready(ipos, ipos + 1)
      requires honest && ipos + n <= |input| ==>
        Scan(input, ipos).Some? && Scan(input, ipos).value.1 == ipos + n && Plain(Scan(input, ipos).value.0)
      requires honest && ipos in targets ==> ipos in table && table[ipos] == |out|
      modifies `ipos, `out, `marks, `m, `img
      ensures Valid() && lastGood != 0
      ensures r.Ok? <==> old(ipos) + n <= |input|
      ensures r.Ok? ==> ipos == old(ipos) + n && Ready(ipos, ipos)
      ensures Ordinary(r)
    {
      hide Scan, Core, Current, Path, StackOk;
      ghost var i, was := ipos, out;
      r := CopyContent(n);
      if honest && r.Ok? {
        CopiedHere(input, i, ipos, was, out);
        CarryCopied(i, was, strings);
      }
    }

    method MergeVarint(tag: byte) returns (r: Outcome)
      requires 0 < ipos < |input| && tag == input[ipos] % HIGH && Ready(ipos, ipos + 1)
      requires honest && Read(input, ipos + 1).Some? ==>
        Scan(input, ipos).Some? && Scan(input, ipos).value.1 == Read(input, ipos + 1).value.1 && Plain(Scan(input, ipos).value.0)
      requires honest && ipos in targets ==> ipos in table && table[ipos] == |out|
      modifies `ipos, `out, `marks, `m, `img
      ensures Valid() && lastGood != 0
      ensures r.Ok? <==> Read(input, old(ipos) + 1).Some?
      ensures r.Ok? ==> old(ipos) < ipos == Read(input, old(ipos) + 1).value.1 && Ready(ipos, ipos)
      ensures Ordinary(r)
    {
      hide Scan, Core, Current, Path, StackOk;
      ghost var i, was := ipos, out;
      PutTag(tag);
      r := CopyVarint();
      if honest {
        if r.Ok? {
          assert Copied(input, i, ipos, was, out);
          CarryCopied(i, was, strings);
        } else {
          CoreJunk(was, out, lastGood, marks, kept, done, strings, classes, mode);
        }
      }
    }

    // ----- how deep, and what the tables gain -----

    /** What the merging of the value at i says about depth, if d levels were counted in front of it: it is
        not too deep, and `extra` levels and those it leaks are not given back; or it is too deep. */
    ghost predicate Deep(i: nat, d: nat, extra: nat, r: Outcome)
      reads `input, `honest, `depth
    {
      honest ==>
        && (r.Ok? ==> InDepth(input, i, EndOf(input, i), d, maxDepth) && depth == d + extra + Leaks(input, i, EndOf(input, i)))
        && (r.TooDeep? ==> !InDepth(input, i, EndOf(input, i), d, maxDepth))
    }

    predicate SmallAt(i: nat)
      reads `input
    {
      i < |input| && input[i] % HIGH <= NEG_HIGH
    }

    /** The end of the document, or a small integer. */
    predicate Bare(i: nat)
      reads `input
    {
      i >= |input| || SmallAt(i)
    }

    /** An object with its class name spelled out, and behind it nothing or a small integer. */
    predicate NamedAt(i: nat)
      reads `input
    {
      && i + 1 < |input| && (input[i] % HIGH == OBJECT || input[i] % HIGH == OBJECT_FREEZE)
      && TextAt(input, i + 1) && Bare(Scan(input, i + 1).value.1)
    }

    predicate Plainly(i: nat)
      reads `input
    {
      Bare(i) || NamedAt(i)
    }

    /** What the merging of something plain at i adds to the class names: nothing, or the one that is new. */
    ghost predicate ClassesThen(i: nat, classes0: seq<Entry>, o: nat)
      reads `input, `classes
    {
      && (Bare(i) ==> classes == classes0)
      && (!Bare(i) && NamedAt(i) ==> NewClass(input[i + 1..Scan(input, i + 1).value.1], classes0, o))
    }

    ghost predicate NewClass(s: seq<byte>, classes0: seq<Entry>, o: nat)
      reads `classes
    {
      Eligible(s) && (forall e :: e in classes0 ==> e.hash != hash(s)) ==> classes == classes0 + [Entry(hash(s), |s|, o + 1)]
    }

    // ----- the recursive descent -----

    /** The tag of an array or hash, with its count. */
    method PutOpen(tag: byte, length: nat, ghost i: nat)
      requires 0 < i < |input| && tag == input[i] % HIGH && Ready(i, i + 1)
      requires if tag == ARRAY || tag == HASH then i + 1 < ipos <= |input| else ipos == i && ARRAYREF <= tag < SHORT_BINARY
      requires length <= MAX_COUNT
      requires honest ==> Scan(input, i) == Some((Open(Group(tag), length), if ipos == i then i + 1 else ipos))
      requires honest && i in targets ==> i in table && table[i] == |out|
      modifies `ipos, `out, `marks, `m, `img
      ensures ipos == (if old(ipos) == i then i + 1 else old(ipos)) && Ready(ipos, ipos)
    {
      hide Scan, Core, Current, Path, StackOk;
      if tag == ARRAY || tag == HASH {
        ghost var was := out;
        PutNumber(tag, length);
        if honest {
          CarryWritten(i, was, tag, length);
        }
      } else {
        PutBare(tag);
      }
    }

    function Group(tag: int): int {
      if ARRAYREF <= tag < HASHREF then ARRAYREF else if HASHREF <= tag < SHORT_BINARY then HASHREF else tag
    }

    /** The members so far are not too deep, and the depth is what they leaked. */
    ghost predicate Through(start: nat, d: nat)
      reads `input, `honest, `ipos, `depth
    {
      honest ==> InDepth(input, start, ipos, d, maxDepth) && depth == d + Leaks(input, start, ipos)
    }

    lemma NoMembers(start: nat)
      requires ipos == start
      ensures Through(start, depth)
    {
      DepthNone(input, start, depth, maxDepth);
      hide InDepth, Leaks;
    }

    /** One member more of the tag at i, or one that is too deep. */
    lemma Member(i: nat, start: nat, ws: seq<Want>, tail: seq<Want>, at: nat, d: nat, d': nat, r: Outcome)
      requires 0 < d && Deep(at, d', 0, r) && (r.Ok? && honest ==> at < ipos && Parse(input, at, [Item]) == Some(ipos))
      requires honest ==>
        && Scan(input, i).Some? && Scan(input, i).value.1 == start && Encloses(input, i) && Parse(input, start, ws) == Some(at)
        && Wants(Scan(input, i).value.0) == ws + tail && tail != [] && tail[0] == Item
        && d' == d + Leaks(input, start, at) && (r.Ok? ==> InDepth(input, start, at, d, maxDepth))
      ensures r.Ok? ==> Through(start, d)
      ensures !r.Ok? ==> Deep(i, d - 1, 1, r)
    {
      hide Scan, Parse, InDepth, Leaks, Encloses, Wants;
      if honest {
        if r.Ok? {
          DepthSplit(input, start, ws, at, ipos, d, maxDepth);
        } else if r.TooDeep? {
          MemberEnd(input, i, start, ws, at, tail);
          DepthMember(input, i, start, ws, at, d - 1, maxDepth);
        }
      }
    }

    /** The k-th of n pairs. */
    lemma PairMember(i: nat, start: nat, k: nat, n: nat, p: nat, d: nat, d': nat, r: Outcome)
      requires 0 < d && k < n
      requires honest && (r.Ok? || r.TooDeep?) ==> Parse(input, p, [Key]).Some? && Deep(Parse(input, p, [Key]).value, d', 0, r)
      requires honest && r.Ok? ==> Parse(input, Parse(input, p, [Key]).value, [Item]) == Some(ipos)
      requires honest ==>
        && Scan(input, i).Some? && Scan(input, i).value.1 == start && Encloses(input, i) && Parse(input, start, Pairs(k)) == Some(p)
        && Wants(Scan(input, i).value.0) == Pairs(n) && InDepth(input, start, p, d, maxDepth) && d' == d + Leaks(input, start, p)
      ensures r.Ok? ==> Through(start, d)
      ensures !r.Ok? ==> Deep(i, d - 1, 1, r)
    {
      hide Scan, Parse, InDepth, Leaks, Encloses, Wants, Pairs;
      if honest && (r.Ok? || r.TooDeep?) {
        var at := Parse(input, p, [Key]).value;
        PairsCut(n, k);
        ParseSplit(input, start, Pairs(k), [Key]);
        DepthKey(input, p, at, EndOf(input, at), d', maxDepth);
        DepthSplit(input, start, Pairs(k), p, at, d, maxDepth);
        DepthHere(input, at, EndOf(input, at), d', maxDepth);
        Member(i, start, Pairs(k) + [Key], [Item] + Pairs(n - k - 1), at, d, d', r);
      }
    }

    /** All members of the tag at i. */
    lemma Members(i: nat, start: nat, d: nat)
      requires 0 < d <= maxDepth && Through(start, d) && i < start <= ipos
      requires honest ==>
        && Scan(input, i).Some? && Scan(input, i).value.1 == start && Encloses(input, i) && Parse(input, i, [Item]) == Some(ipos)
      ensures Deep(i, d - 1, 1, Ok)
    {
      hide Scan, Parse, InDepth, Leaks, Encloses;
      if honest {
        DepthOpen(input, i, start, d - 1, maxDepth);
      }
    }

    method MergeArray(tag: byte, length: nat, ghost i: nat) returns (r: Outcome)
      requires 0 < i < |input| && tag == input[i] % HIGH && Ready(i, i + 1)
      requires if tag == ARRAY then i + 1 < ipos <= |input| else ipos == i && ARRAYREF <= tag < HASHREF
      requires length <= MAX_COUNT
      requires honest ==> Scan(input, i) == Some((Open(Group(tag), length), if ipos == i then i + 1 else ipos))
      requires honest && i in targets ==> i in table && table[i] == |out|
      requires 0 < depth <= maxDepth
      modifies `ipos, `out, `tracked, `table, `strings, `classes, `depth, `marks, `m, `img
      ensures Valid() && lastGood != 0
      ensures r.Ok? ==> i < ipos <= |input| && Ready(ipos, ipos) && depth >= old(depth)
      ensures r.Ok? && honest ==> Parse(input, i, [Item]) == Some(ipos)
      ensures honest && Parse(input, i, [Item]).Some? ==> r.Ok? || r.TooDeep?
      ensures Deep(i, old(depth) - 1, 1, r) && !r.NoMemory? && !r.Underrun?
      decreases |input| - i, 0
    {
      hide Scan, Core, Current, Path, StackOk, Parse, Items, Wants, Ready, Valid, Basic, InDepth, Leaks, Deep;
      PutOpen(tag, length, i);
      ghost var start := ipos;
      ParseItem(input, i);
      GroupWants(length);
      GroupStart(input, start);
      NoMembers(start);
      var k := 0;
      while k < length
        invariant 0 <= k <= length && i < start <= ipos <= |input| && Ready(ipos, ipos) && depth >= old(depth)
        invariant honest ==> Parse(input, start, Items(k)) == Some(ipos)
        invariant Through(start, old(depth))
      {
        ghost var at, d := ipos, depth;
        if honest {
          ItemsNext(input, start, k, length, ipos);
        }
        r := MergeValue();
        ItemsCut(length, k);
        Member(i, start, Items(k), Items(length - k), at, old(depth), d, r);
        if !r.Ok? {
          return;
        }
        k := k + 1;
      }
      Members(i, start, old(depth));
      ReadyValid(ipos, ipos);
      r := Ok;
    }

    /** A key and its value. */
    method MergePair() returns (r: Outcome)
      requires 0 < ipos <= |input| && Ready(ipos, ipos)
      modifies `ipos, `out, `tracked, `table, `strings, `classes, `depth, `marks, `m, `img
      ensures Valid() && lastGood != 0
      ensures r.Ok? ==> old(ipos) < ipos <= |input| && Ready(ipos, ipos) && depth >= old(depth)
      ensures r.Ok? && honest ==> Parse(input, old(ipos), [Key]).Some? && Parse(input, Parse(input, old(ipos), [Key]).value, [Item]) == Some(ipos)
      ensures honest && Parse(input, old(ipos), [Key]).Some? && Parse(input, Parse(input, old(ipos), [Key]).value, [Item]).Some? ==>
        r.Ok? || r.TooDeep?
      ensures honest && (r.Ok? || r.TooDeep?) ==>
        Parse(input, old(ipos), [Key]).Some? && Deep(Parse(input, old(ipos), [Key]).value, old(depth), 0, r)
      ensures !r.NoMemory? && !r.Underrun?
      decreases |input| - ipos, 4
    {
      hide Scan, Core, Current, Path, StackOk, Parse, Ready, Valid, Basic, Deep;
      r := MergeStringish();
      if r.Ok? {
        r := MergeValue();
      }
    }

    method MergeHash(tag: byte, length: nat, ghost i: nat) returns (r: Outcome)
      requires 0 < i < |input| && tag == input[i] % HIGH && Ready(i, i + 1)
      requires if tag == HASH then i + 1 < ipos <= |input| else ipos == i && HASHREF <= tag < SHORT_BINARY
      requires length <= MAX_COUNT
      requires honest ==> Scan(input, i) == Some((Open(Group(tag), length), if ipos == i then i + 1 else ipos))
      requires honest && i in targets ==> i in table && table[i] == |out|
      requires 0 < depth <= maxDepth
      modifies `ipos, `out, `tracked, `table, `strings, `classes, `depth, `marks, `m, `img
      ensures Valid() && lastGood != 0
      ensures r.Ok? ==> i < ipos <= |input| && Ready(ipos, ipos) && depth >= old(depth)
      ensures r.Ok? && honest ==> Parse(input, i, [Item]) == Some(ipos)
      ensures honest && Parse(input, i, [Item]).Some? ==> r.Ok? || r.TooDeep?
      ensures Deep(i, old(depth) - 1, 1, r) && !r.NoMemory? && !r.Underrun?
      decreases |input| - i, 0
    {
      hide Scan, Core, Current, Path, StackOk, Parse, Pairs, Wants, Ready, Valid, Basic, InDepth, Leaks, Deep;
      PutOpen(tag, length, i);
      ghost var start := ipos;
      ParseItem(input, i);
      GroupWants(length);
      GroupStart(input, start);
      NoMembers(start);
      var k := 0;
      while k < length
        invariant 0 <= k <= length && i < start <= ipos <= |input| && Ready(ipos, ipos) && depth >= old(depth)
        invariant honest ==> Parse(input, start, Pairs(k)) == Some(ipos)
        invariant Through(start, old(depth))
      {
        ghost var at, d := ipos, depth;
        if honest {
          PairsNext(input, start, k, length, ipos);
        }
        r := MergePair();
        PairMember(i, start, k, length, at, old(depth), d, r);
        if !r.Ok? {
          return;
        }
        k := k + 1;
      }
      Members(i, start, old(depth));
      ReadyValid(ipos, ipos);
      r := Ok;
    }

    /** Nothing refers to padding. */
    lemma PadFree()
      requires 0 < ipos < |input| && input[ipos] % HIGH == PAD
      ensures Ready(ipos, ipos) <==> Ready(ipos, ipos + 1)
      ensures honest && Ready(ipos, ipos) ==> ipos !in targets
    {
      hide Scan, Core, Path, Current;
      if honest && (Ready(ipos, ipos) || Ready(ipos, ipos + 1)) {
        PadStack(input, 1, ipos, out, lastGood, marks, m, img, strings, classes, mode, tracked, table);
      }
    }

    /** One piece of padding. */
    method PutPad()
      requires 0 < ipos < |input| && input[ipos] == PAD && Ready(ipos, ipos)
      modifies `ipos, `out, `marks, `m, `img
      ensures ipos == old(ipos) + 1 && Ready(ipos, ipos)
      ensures honest ==> Parse(input, ipos, [Item]) == Parse(input, old(ipos), [Item])
    {
      hide Scan, Core, Current, Path, StackOk, Parse, Ready;
      OpenScan(input, ipos);
      ParseItem(input, ipos);
      PadFree();
      PutBare(PAD);
    }

    /** From the tag at i on, w levels that are not given back have been counted up to p. */
    ghost predicate Risen(i: nat, p: nat, d: nat, w: nat)
      reads `input
    {
      var e := EndOf(input, i);
      && (InDepth(input, i, e, d, maxDepth) <==> InDepth(input, p, e, d + w, maxDepth))
      && (InDepth(input, i, e, d, maxDepth) ==> Leaks(input, i, e) == w + Leaks(input, p, e))
    }

    /** Padding is behind p, or nothing but another pad. */
    ghost predicate PadsTo(i: nat, p: nat, d: nat)
      reads `input
    {
      if i < p && (p >= |input| || input[p] % HIGH != PAD) then Risen(i, p, d, 1) else Risen(i, p, d, 0)
    }

    lemma PadNext(i: nat, p: nat, d: nat)
      requires i <= p < |input| && input[p] == PAD && d < maxDepth && PadsTo(i, p, d) && EndOf(input, i) == EndOf(input, p)
      ensures PadsTo(i, p + 1, d)
    {
      hide Scan, Parse, InDepth, Leaks, EndOf;
      DepthPad(input, p, d, maxDepth);
    }

    /** A pad with the track flag is never left behind. */
    lemma PadStuck(i: nat, p: nat, d: nat)
      requires i <= p <= |input| && PadsTo(i, p, d) && EndOf(input, i) == EndOf(input, p) && (i == p ==> p < |input| && input[p] % HIGH == PAD)
      requires p < |input| ==> input[p] != PAD
      ensures Risen(i, p, d, 1)
    {
      hide Scan, Parse, InDepth, Leaks;
      if p < |input| && input[p] % HIGH == PAD {
        assert input[p] == 191;
        DepthHere(input, p, EndOf(input, i), d, maxDepth);
        DepthHere(input, p, EndOf(input, i), d + 1, maxDepth);
      }
    }

    /** Padding before a value. */
    method MergePads(ghost d: nat)
      requires 0 < ipos < |input| && input[ipos] % HIGH == PAD && Ready(ipos, ipos + 1) && d < maxDepth
      modifies `ipos, `out, `marks, `m, `img
      ensures old(ipos) <= ipos <= |input| && Ready(ipos, ipos)
      ensures honest ==> Parse(input, ipos, [Item]) == Parse(input, old(ipos), [Item]) && Risen(old(ipos), ipos, d, 1)
    {
      hide Scan, Core, Current, Path, StackOk, Parse, Ready, InDepth, Leaks, PadsTo, Risen;
      PadFree();
      NotRisen(ipos, d);
      while ipos < |input| && input[ipos] == PAD
        invariant old(ipos) <= ipos <= |input| && Ready(ipos, ipos)
        invariant honest ==> Parse(input, ipos, [Item]) == Parse(input, old(ipos), [Item]) && PadsTo(old(ipos), ipos, d)
      {
        if honest {
          PadNext(old(ipos), ipos, d);
        }
        PutPad();
      }
      if honest {
        PadStuck(old(ipos), ipos, d);
      }
    }

    lemma NotRisen(i: nat, d: nat)
      ensures Risen(i, i, d, 0) && PadsTo(i, i, d)
    {
      hide InDepth, Leaks;
    }

    /** A pattern and its modifiers; the modifiers are copied without looking whether they are referred to. */
    method MergeRegexp() returns (r: Outcome)
      requires 0 < ipos < |input| && input[ipos] % HIGH == REGEXP && !honest && Valid() && lastGood != 0
      modifies `ipos, `out, `tracked, `table, `strings, `marks, `m, `img
      ensures Valid() && lastGood != 0
      ensures r.Ok? ==> old(ipos) < ipos <= |input| && Ready(ipos, ipos)
      ensures Ordinary(r)
    {
      hide Scan, Core, Current, Path, StackOk, Parse;
      PutTag(REGEXP);
      r := MergeStringish();
      if !r.Ok? {
        return;
      }
      if ipos >= |input| {
        return Overrun;
      }
      var tag := input[ipos];
      if tag < SHORT_BINARY {
        return NotString;
      }
      r := CopyContent(tag % 32 + 1);
    }

    /** A value that is a single tag. */
    method MergeSingle(tag: byte, hit: bool) returns (r: Outcome)
      requires 0 < ipos < |input| && tag == input[ipos] % HIGH && IsSingle(tag) && Ready(ipos, ipos + 1)
      requires honest ==> (hit <==> ipos in targets)
      requires hit ==> ipos in table && table[ipos] == |out|
      modifies `ipos, `out, `table, `strings, `marks, `m, `img
      ensures Valid() && lastGood != 0
      ensures r.Ok? ==> old(ipos) < ipos <= |input| && Ready(ipos, ipos)
      ensures r.Ok? && honest ==> Parse(input, old(ipos), [Item]) == Some(ipos)
      ensures honest && Parse(input, old(ipos), [Item]).Some? ==> r.Ok?
      ensures Ordinary(r) && (tag <= NEG_HIGH ==> strings == old(strings))
    {
      hide Scan, Core, Current, Path, StackOk, Parse;
      SingleParse(input, ipos);
      if IsLeaf(tag) {
        r := MergeLeaf(tag);
      } else if tag >= SHORT_BINARY {
        r := MergeShortBinary(tag, hit);
      } else if tag == BINARY || tag == STR_UTF8 {
        r := MergeBinaryUtf8(hit);
      } else {
        r := MergeLink(tag, false);
      }
    }

    /** A value that is an array or a hash. */
    method MergeGroup(tag: byte) returns (r: Outcome)
      requires 0 < ipos < |input| && tag == input[ipos] % HIGH && IsGroup(tag) && Ready(ipos, ipos + 1)
      requires honest && ipos in targets ==> ipos in table && table[ipos] == |out|
      requires 0 < depth <= maxDepth
      modifies `ipos, `out, `tracked, `table, `strings, `classes, `depth, `marks, `m, `img
      ensures Valid() && lastGood != 0
      ensures r.Ok? ==> old(ipos) < ipos <= |input| && Ready(ipos, ipos) && depth >= old(depth)
      ensures r.Ok? && honest ==> Parse(input, old(ipos), [Item]) == Some(ipos)
      ensures honest && Parse(input, old(ipos), [Item]).Some? ==> r.Ok? || r.TooDeep?
      ensures Deep(old(ipos), old(depth) - 1, 1, r) && !r.NoMemory? && !r.Underrun?
      decreases |input| - ipos, 1
    {
      hide Scan, Core, Current, Path, StackOk, Parse, InDepth, Leaks;
      OpenScan(input, ipos);
      ParseItem(input, ipos);
      if ARRAYREF <= tag < HASHREF {
        r := MergeArray(tag, tag - ARRAYREF, ipos);
      } else if HASHREF <= tag < SHORT_BINARY {
        r := MergeHash(tag, tag - HASHREF, ipos);
      } else {
        ghost var i := ipos;
        var length;
        ipos := ipos + 1;
        r, length := ReadNumber();
        if !r.Ok? {
          return;
        }
        if length > MAX_COUNT {
          return BadVarint;
        }
        if tag == HASH {
          r := MergeHash(tag, length, i);
        } else {
          r := MergeArray(tag, length, i);
        }
      }
    }

    lemma Unknown(objtag: byte, s: seq<byte>, classes0: seq<Entry>, was: seq<byte>)
      ensures ClassPut(objtag, classes0, was, s) ==> NewClass(s, classes0, |was|)
    {
    }

    /** An object: its tag, its class name, its value. */
    method MergeObject(tag: byte) returns (r: Outcome)
      requires 0 < ipos < |input| && tag == input[ipos] % HIGH && Ready(ipos, ipos + 1)
      requires tag == OBJECT || tag == OBJECT_FREEZE
      requires honest && ipos in targets ==> ipos in table && table[ipos] == |out|
      requires 0 < depth <= maxDepth
      modifies `ipos, `out, `tracked, `table, `strings, `classes, `depth, `marks, `m, `img
      ensures Valid() && lastGood != 0
      ensures r.Ok? ==> old(ipos) < ipos <= |input| && Ready(ipos, ipos) && depth >= old(depth)
      ensures r.Ok? && honest ==> Parse(input, old(ipos), [Item]) == Some(ipos)
      ensures honest && Parse(input, old(ipos), [Item]).Some? ==> r.Ok? || r.TooDeep?
      ensures Deep(old(ipos), old(depth) - 1, 1, r) && !r.NoMemory? && !r.Underrun?
      ensures NamedAt(old(ipos)) ==> strings == old(strings) && NewClass(NameAt(old(ipos)), old(classes), |old(out)|)
      decreases |input| - ipos, 1
    {
      hide Scan, Core, Current, Path, StackOk, Parse, Ready, Valid, Basic, Known, ClassPut, NewClass, InDepth, Leaks;
      ghost var i, d := ipos, depth;
      ghost var v;
      ghost var was, classes0 := out, classes;
      r, v := MergeObjectHead(tag);
      if NamedAt(i) {
        Unknown(tag, NameAt(i), classes0, was);
      }
      if r.Ok? {
        if honest {
          ParseObject(input, i);
        }
        ghost var at := ipos;
        r := MergeValue();
        ObjectMember(i, at, d, r);
      }
    }

    /** The value of the object at i. */
    lemma ObjectMember(i: nat, at: nat, d: nat, r: Outcome)
      requires 0 < d <= maxDepth && Deep(at, d, 0, r)
      requires honest ==>
        && Scan(input, i).Some? && IsObject(Scan(input, i).value.0) && Scan(input, i).value.1 == i + 1
        && Scan(input, i + 1).Some? && Stringish(Scan(input, i + 1).value.0) && Scan(input, i + 1).value.1 == at
        && Parse(input, i, [Item]) == Parse(input, at, [Item])
      ensures Deep(i, d - 1, 1, r)
    {
      hide Scan, Parse, InDepth, Leaks;
      if honest {
        ParseKey(input, i + 1);
        TagFollows(input, i);
        DepthOpen(input, i, i + 1, d - 1, maxDepth);
        DepthKey(input, i + 1, at, EndOf(input, at), d, maxDepth);
        DepthSplit(input, i + 1, [Key], at, EndOf(input, at), d, maxDepth);
      }
    }

    lemma RegexpUnsound()
      requires ipos < |input| && input[ipos] % HIGH == REGEXP && Ready(ipos, ipos + 1)
      ensures !honest && Valid() && lastGood != 0
    {
      hide Core, Current, Path, StackOk, Parse;
      ReadyNoOther();
      assert Scan(input, ipos) == Some((Other(REGEXP), ipos + 1));
    }

    /** A tag that only prefixes the value behind it. */
    method MergePrefix(tag: byte, ghost d: nat) returns (r: Outcome)
      requires 0 < ipos < |input| && tag == input[ipos] % HIGH && Ready(ipos, ipos + 1)
      requires !IsSingle(tag) && !IsGroup(tag) && tag != OBJECT && tag != OBJECT_FREEZE && tag != REGEXP
      requires honest && ipos in targets ==> ipos in table && table[ipos] == |out|
      requires d < maxDepth
      modifies `ipos, `out, `marks, `m, `img
      ensures Valid() && lastGood != 0
      ensures r.Ok? ==> old(ipos) <= ipos <= |input| && Ready(ipos, ipos)
      ensures r.Ok? && honest ==> Parse(input, old(ipos), [Item]) == Parse(input, ipos, [Item])
      ensures honest && Parse(input, old(ipos), [Item]).Some? ==> r.Ok?
      ensures r.Ok? && honest ==> Risen(old(ipos), ipos, d, 1)
      ensures Ordinary(r)
    {
      hide Scan, Core, Current, Path, StackOk, Parse, Ready, Valid, Basic, Risen;
      ghost var i := ipos;
      ReadyNoOther();
      OpenScan(input, ipos);
      ParseItem(input, ipos);
      ReadyValid(ipos, ipos + 1);
      r := Ok;
      if tag == REFN || tag == WEAKEN || tag == EXTEND {
        if honest {
          FrontRisen(i, i + 1, d);
        }
        PutBare(tag);
        ReadyValid(ipos, ipos);
      } else if tag == OBJECTV || tag == OBJECTV_FREEZE {
        LinkScan(input, ipos, tag);
        r := MergeLink(tag, false);
        if r.Ok? && honest {
          FrontRisen(i, ipos, d);
        }
      } else if tag == PAD {
        MergePads(d);
        ReadyValid(ipos, ipos);
      } else {
        UnknownScan(input, ipos);
        r := BadTag;
      }
    }

    lemma FrontRisen(i: nat, p: nat, d: nat)
      requires i < |input| && Scan(input, i).Some? && Scan(input, i).value.1 == p && input[i] % 128 in {40, 45, 48, 51} && d < maxDepth
      ensures Risen(i, p, d, 1)
    {
      hide Scan, InDepth, Leaks;
      DepthFront(input, i, p, d, maxDepth);
    }

    /** One value, with everything that belongs to it. */
    method MergeValue() returns (r: Outcome)
      requires 0 < ipos <= |input| && Ready(ipos, ipos)
      modifies `ipos, `out, `tracked, `table, `strings, `classes, `depth, `marks, `m, `img
      ensures Valid() && lastGood != 0
      ensures r.Ok? ==> old(ipos) < ipos <= |input| && Ready(ipos, ipos) && depth >= old(depth)
      ensures r.Ok? && honest ==> Parse(input, old(ipos), [Item]) == Some(ipos)
      ensures honest && Parse(input, old(ipos), [Item]).Some? ==> r.Ok? || r.TooDeep?
      ensures Deep(old(ipos), old(depth), 0, r) && !r.NoMemory? && !r.Underrun?
      ensures Plainly(old(ipos)) && old(depth) < maxDepth ==>
        strings == old(strings) && ClassesThen(old(ipos), old(classes), |old(out)|)
      ensures Bare(old(ipos)) ==> strings == old(strings) && classes == old(classes)
      decreases |input| - ipos, 3
    {
      hide Scan, Core, Current, Path, StackOk, Parse, Ready, Valid, Basic, InDepth, Leaks, Risen, Plainly, ClassesThen, NamedAt, Eligible;
      ghost var start := ipos;
      NotRisen(start, depth);
      while true
        invariant 0 < start <= ipos <= |input| && Ready(ipos, ipos) && depth >= old(depth)
        invariant honest ==> Parse(input, start, [Item]) == Parse(input, ipos, [Item])
        invariant honest ==> Risen(start, ipos, old(depth), depth - old(depth))
        invariant Plainly(start) ==>
          ipos == start && strings == old(strings) && classes == old(classes) && out == old(out) && depth == old(depth)
        decreases |input| - ipos, if depth <= maxDepth then maxDepth + 1 - depth else 0
      {
        depth := depth + 1;
        ReadyValid(ipos, ipos);
        PlainEnd(start);
        if depth > maxDepth {
          Reached(start, ipos, old(depth));
          return TooDeep;
        }
        ParseItem(input, ipos);
        if ipos >= |input| {
          EndScan(input, ipos);
          return Ended;
        }
        var hit := TrackHere();
        var more;
        ghost var at, d := ipos, depth - 1;
        r, more := MergeHere(input[ipos] % HIGH, hit);
        if !r.Ok? || !more {
          RisenTo(start, at, old(depth), d, r);
          return;
        }
        if honest {
          RisenOn(start, at, ipos, old(depth), d);
        }
      }
    }

    /** The limit is exceeded at p. */
    lemma Reached(start: nat, p: nat, d: nat)
      requires start <= p <= |input| && d < depth && maxDepth < depth
      requires honest ==> Risen(start, p, d, depth - 1 - d) && Parse(input, start, [Item]) == Parse(input, p, [Item])
      ensures Deep(start, d, 0, TooDeep)
    {
      hide Scan, Parse, InDepth, Leaks;
      if honest {
        DepthHere(input, p, EndOf(input, p), depth - 1, maxDepth);
      }
    }

    lemma RisenOn(start: nat, p: nat, q: nat, d: nat, d': nat)
      requires d <= d' && EndOf(input, start) == EndOf(input, p) && Risen(start, p, d, d' - d) && Risen(p, q, d', 1)
      ensures Risen(start, q, d, d' + 1 - d)
    {
      hide InDepth, Leaks;
    }

    lemma RisenTo(start: nat, p: nat, d: nat, d': nat, r: Outcome)
      requires d <= d' && Deep(p, d', 0, r)
      requires honest ==> Risen(start, p, d, d' - d) && Parse(input, start, [Item]) == Parse(input, p, [Item])
      ensures Deep(start, d, 0, r)
    {
      hide Parse, InDepth, Leaks;
    }

    lemma PlainEnd(i: nat)
      ensures Bare(i) ==> Plainly(i)
      ensures i >= |input| ==> ClassesThen(i, classes, |out|)
    {
    }

    /** The value whose tag is at ipos; `more` says that it was only a prefix.  The depth is given back unless
        that is so. */
    method MergeHere(tag: byte, hit: bool) returns (r: Outcome, more: bool)
      requires 0 < ipos < |input| && tag == input[ipos] % HIGH && Ready(ipos, ipos + 1) && 0 < depth <= maxDepth
      requires honest ==> (hit <==> ipos in targets)
      requires hit ==> ipos in table && table[ipos] == |out|
      modifies `ipos, `out, `tracked, `table, `strings, `classes, `depth, `marks, `m, `img
      ensures Valid() && lastGood != 0
      ensures r.Ok? && more ==> old(ipos) <= ipos <= |input| && Ready(ipos, ipos) && depth == old(depth)
      ensures r.Ok? && more && honest ==>
        Parse(input, old(ipos), [Item]) == Parse(input, ipos, [Item]) && Risen(old(ipos), ipos, old(depth) - 1, 1)
      ensures r.Ok? && !more ==> old(ipos) < ipos <= |input| && Ready(ipos, ipos) && depth + 1 >= old(depth)
      ensures r.Ok? && !more && honest ==> Parse(input, old(ipos), [Item]) == Some(ipos)
      ensures honest && Parse(input, old(ipos), [Item]).Some? ==> r.Ok? || r.TooDeep?
      ensures (!r.Ok? || !more ==> Deep(old(ipos), old(depth) - 1, 0, r)) && !r.NoMemory? && !r.Underrun?
      ensures Plainly(old(ipos)) ==> !more && strings == old(strings) && ClassesThen(old(ipos), old(classes), |old(out)|)
      ensures Bare(old(ipos)) ==> classes == old(classes)
      decreases |input| - ipos, 2
    {
      hide Scan, Core, Current, Path, StackOk, Parse, Ready, Valid, Basic, InDepth, Leaks, NewClass, Risen;
      PlainTag(ipos);
      more := false;
      ghost var i := ipos;
      if IsSingle(tag) {
        r := MergeSingle(tag, hit);
        depth := depth - 1;
        if r.Ok? && honest {
          SingleShallow(i, ipos, depth);
        }
      } else if IsGroup(tag) {
        r := MergeGroup(tag);
        depth := if r.Ok? then depth - 1 else depth;
      } else if tag == OBJECT || tag == OBJECT_FREEZE {
        r := MergeObject(tag);
        depth := if r.Ok? then depth - 1 else depth;
      } else if tag == REGEXP {
        RegexpUnsound();
        r := MergeRegexp();
        depth := depth - 1;
      } else {
        r := MergePrefix(tag, depth - 1);
        more := true;
      }
    }

    lemma SingleShallow(i: nat, e: nat, d: nat)
      requires i < |input| && IsSingle(input[i] % HIGH) && Parse(input, i, [Item]) == Some(e) && d < maxDepth
      ensures InDepth(input, i, e, d, maxDepth) && Leaks(input, i, e) == 0
    {
      SingleParse(input, i);
      SingleWants(input, i);
      DepthSingle(input, i, e, d, maxDepth);
    }

    /** Only objects and small integers are plain. */
    lemma PlainTag(i: nat)
      requires i < |input|
      ensures Plainly(i) ==> input[i] % HIGH <= NEG_HIGH || input[i] % HIGH == OBJECT || input[i] % HIGH == OBJECT_FREEZE
      ensures NamedAt(i) ==> !Bare(i)
    {
    }

    /** The class name of the object at i, tag and all. */
    function NameAt(i: nat): seq<byte>
      requires NamedAt(i)
      reads `input
    {
      input[i + 1..Scan(input, i + 1).value.1]
    }

    // ----- the first pass -----

    /** Steps over one tag without looking at nesting, and notes the offset it carries, if any.  The
        lengths of floats and short strings are not checked here. */
    method SkipTag() returns (r: Outcome)
      requires ipos < |input|
      modifies `ipos, `tracked
      ensures r.Ok? ==> match Scan(input, old(ipos)) {
        case None => ipos > |input| && tracked == old(tracked)
        case Some((t, q)) => ipos == q && tracked == old(tracked) + LinkList(t)
      }
      ensures match Scan(input, old(ipos)) {
        case None => r.Ok? <==> Fixed(input[old(ipos)] % 128)
        case Some((t, q)) => r.Ok? <==> LinkList(t) == [] || LinkList(t)[0] < q
      }
      ensures Ordinary(r)
    {
      hide Scan;
      var tag := input[ipos] % HIGH;
      if IsLink(tag) {
        LinkScan(input, ipos, tag);
        var x;
        ipos := ipos + 1;
        r, x := ReadOffset();
        if r.Ok? {
          tracked := tracked + [x];
        }
      } else if Linkless(tag) {
        LinklessScan(input, ipos);
        r := SkipLinkless(tag);
      } else {
        UnknownScan(input, ipos);
        r := BadTag;
      }
    }

    method SkipLinkless(tag: byte) returns (r: Outcome)
      requires ipos < |input| && tag == input[ipos] % HIGH && Linkless(tag)
      modifies `ipos
      ensures r.Ok? ==> match Scan(input, old(ipos)) {
        case None => ipos > |input|
        case Some((t, q)) => ipos == q
      }
      ensures r.Ok? <==> Scan(input, old(ipos)).Some? || Fixed(tag)
      ensures Ordinary(r)
    {
      hide Scan;
      LinklessScan(input, ipos);
      OpenScan(input, ipos);
      if IsLeaf(tag) {
        LeafScan(input, ipos);
      }
      ipos := ipos + 1;
      r := Ok;
      if tag >= SHORT_BINARY {
        ShortScan(input, ipos - 1);
        ipos := ipos + (tag - SHORT_BINARY);
      } else if tag == VARINT || tag == ZIGZAG {
        var v;
        r, v := ReadNumber();
      } else if tag == FLOAT {
        ipos := ipos + 4;
      } else if tag == DOUBLE {
        ipos := ipos + 8;
      } else if tag == LONG_DOUBLE {
        ipos := ipos + 16;
      } else if tag == BINARY || tag == STR_UTF8 {
        TextScan(input, ipos - 1);
        var n;
        r, n := ReadNumber();
        if r.Ok? && ipos + n > |input| {
          return Ended;
        }
        ipos := ipos + n;
      } else if tag == HASH || tag == ARRAY {
        var n;
        r, n := ReadNumber();
        if r.Ok? && n > MAX_COUNT {
          return BadVarint;
        }
      }
    }

    /** The tag at hand, on the way through the document. */
    method SkipNext() returns (r: Outcome)
      requires 1 <= ipos < |input| && Path(input, 1, ipos) && SkipsTo(input, ipos)
      modifies `ipos, `tracked
      ensures r.Ok? ==>
        && old(ipos) < ipos && 2 * |tracked| - ipos <= 2 * |old(tracked)| - old(ipos)
        && (ipos > |input| ==> tracked == old(tracked))
      ensures r.Ok? ==> forall x :: x in tracked || x in Targets(input, ipos) <==> x in old(tracked) || x in Targets(input, old(ipos))
      ensures r.Ok? ==> (ipos <= |input| ==> Path(input, 1, ipos)) && SkipsTo(input, ipos)
      ensures !r.Ok? && Sound(input) ==> !Skips(input)
      ensures Ordinary(r)
    {
      hide Scan, Path, Sound, SkipsTo, Targets, LinkList;
      ghost var p := ipos;
      SkipsOn(input, p);
      NextTargets(input, p);
      if Scan(input, p).Some? {
        PathStep(input, 1, p);
        LinkWide(input, p);
      }
      r := SkipTag();
      if !r.Ok? {
        SoundOffset(input, p);
      } else if ipos > |input| {
        EndTargets(input, ipos);
      }
    }

    /** Collects every offset that any tag carries, in one flat scan, and orders them. */
    method BuildTrackTable() returns (r: Outcome)
      requires 1 <= |input|
      modifies `ipos, `tracked
      ensures r.Ok? && |input| < 2 * UNSIGNED ==> StrictlyDown(tracked) && forall x :: x in tracked <==> x in Targets(input, 1)
      ensures Sound(input) ==> (r.Ok? <==> Skips(input))
      ensures Ordinary(r)
    {
      tracked := [];
      ipos := 1;
      SkipsStart(input);
      while ipos < |input|
        invariant 1 <= ipos && 2 * |tracked| <= ipos && 2 * |tracked| <= |input|
        invariant forall x :: x in tracked || x in Targets(input, ipos) <==> x in Targets(input, 1)
        invariant ipos <= |input| ==> Path(input, 1, ipos)
        invariant SkipsTo(input, ipos)
        decreases |input| - ipos
      {
        r := SkipNext();
        if !r.Ok? {
          return;
        }
      }
      EndTargets(input, ipos);
      if tracked != [] {
        tracked := SortOffsets(tracked);
      }
      r := Ok;
    }

    // ----- the operations -----

    constructor (dedupe: bool, maxDepth: nat, hash: seq<byte> -> nat)
      ensures Consistent() && honest && done.docs == [] && count == 0 && lastGood == 0 && out == PRELUDE
      ensures strings == [] && classes == [] && stringFloor == 0 && classFloor == 0 && rolled == []
      ensures this.dedupe == dedupe && this.maxDepth == maxDepth && this.hash == hash
    {
      this.dedupe, this.maxDepth, this.hash := dedupe, maxDepth, hash;
      input, ipos, out, tracked, table := [0], 1, PRELUDE, [], map[];
      strings, classes, stringFloor, classFloor, lastGood, count, depth := [], [], 0, 0, 0, 0, 0;
      honest, marks, kept, done := true, {}, {}, Ledger(PRELUDE, []);
      m, img, targets, rolled := map[], map[], {}, [];
      new;
      CoreEmpty(mode);
    }

    /** Drops the entries recorded at or behind `cut`, the newest first, as the string index does. */
    method Purge(es: seq<Entry>, floor: nat, cut: nat) returns (ok: bool, r: seq<Entry>, left: nat)
      requires Rising(es)
      ensures ok <==> CanPurge(floor, |es|)
      ensures ok ==> r == Before(es, cut) && r <= es && left == FloorAfter(floor, |es|, |r|)
    {
      var n := |es|;
      if !CanPurge(floor, n) {
        return false, es, floor;
      }
      while n > 0 && es[n - 1].offset >= cut
        invariant 0 <= n <= |es| && forall k :: n <= k < |es| ==> es[k].offset >= cut
      {
        n := n - 1;
      }
      RisingBelow(es, n, cut);
      BeforeIsPrefix(es, n, cut);
      return true, es[..n], FloorAfter(floor, |es|, n);
    }

    function Tables(): Occupancy
      reads `strings, `classes, `stringFloor, `classFloor
    {
      Occupancy(stringFloor, |strings|, classFloor, |classes|)
    }

    /** Purges both tables. */
    method PurgeTables() returns (r: Outcome)
      requires Rising(strings) && Rising(classes)
      modifies `strings, `classes, `stringFloor, `classFloor
      ensures r == if Clear(old(Tables())) then Ok else Underrun
      ensures r.Ok? ==> strings == Before(old(strings), lastGood) && strings <= old(strings)
      ensures r.Ok? ==> classes == Before(old(classes), lastGood) && classes <= old(classes)
      ensures r.Ok? ==> stringFloor == FloorAfter(old(stringFloor), |old(strings)|, |strings|)
      ensures r.Ok? ==> classFloor == FloorAfter(old(classFloor), |old(classes)|, |classes|)
    {
      hide Before, CanPurge, FloorAfter;
      var okS, strings', floorS := Purge(strings, stringFloor, lastGood);
      if !okS {
        return Underrun;
      }
      var okC, classes', floorC := Purge(classes, classFloor, lastGood);
      if !okC {
        return Underrun;
      }
      strings, classes, stringFloor, classFloor := strings', classes', floorS, floorC;
      r := Ok;
    }

    /** Undoes what a failed append left behind. */
    method Rollback() returns (r: Outcome)
      requires Valid() && lastGood != 0
      modifies `out, `strings, `classes, `stringFloor, `classFloor, `marks, `rolled
      ensures rolled == old(rolled) + [old(Tables())]
      ensures r == if Clear(old(Tables())) then Ok else Underrun
      ensures r.Ok? ==> Valid() && |out| == lastGood <= |old(out)| && out == old(out)[..lastGood] && marks == kept
      ensures r.Ok? ==> strings == Before(old(strings), lastGood) && classes == Before(old(classes), lastGood)
      ensures r.Ok? ==> stringFloor == FloorAfter(old(stringFloor), |old(strings)|, |strings|)
      ensures r.Ok? ==> classFloor == FloorAfter(old(classFloor), |old(classes)|, |classes|)
    {
      hide Scan, Core, Path, Before, Sound, Clear, FloorAfter, Rising;
      if honest {
        CoreUndone(out, lastGood, marks, kept, done, strings, classes, mode);
      }
      BeforeMembers(strings, lastGood);
      BeforeMembers(classes, lastGood);
      rolled := rolled + [Tables()];
      out := out[..lastGood];
      r := PurgeTables();
      if r.Ok? {
        RisingPrefix(strings, old(strings));
        RisingPrefix(classes, old(classes));
        marks := kept;
      }
    }

    /** Merges the document in hand at the end of a clean output. */
    method MergeDocument() returns (r: Outcome)
      requires Valid() && |input| >= 1 && (lastGood == 0 || lastGood == |out|)
      requires honest ==> Mergeable(input) && StrictlyDown(tracked) && forall x :: x in tracked <==> x in Targets(input, 1)
      modifies `ipos, `out, `tracked, `table, `strings, `classes, `lastGood, `count, `depth
      modifies `marks, `kept, `done, `m, `img, `targets
      ensures Valid() && !r.Underrun?
      ensures r.Ok? ==> lastGood == 0 && count == (old(count) + 1) % UNSIGNED
      ensures !r.Ok? ==> done == old(done) && kept == old(kept) && count == old(count) && Base() == |old(out)|
      ensures !r.Ok? && !r.NoMemory? ==> lastGood == |old(out)|
      ensures r.NoMemory? <==> |old(out)| + GROWTH * |input| >= WORD
      ensures honest && r.Ok? ==> Preserved(old(done.body), old(kept), done.body, kept) && |out| <= |old(out)| + GROWTH * |input|
      ensures honest && r.Ok? ==>
        && Parse(input, 1, [Item]).Some? && done.body == out
        && done.docs == old(done).docs + [Doc(Piece(input, 1, 1), Parse(input, 1, [Item]).value, m, img)]
      ensures honest && Parse(input, 1, [Item]).Some? ==> r.Ok? || r.TooDeep? || r.NoMemory?
      ensures honest ==> (r.Ok? ==> Shallow(input, maxDepth)) && (r.TooDeep? ==> !Shallow(input, maxDepth))
      ensures Plainly(1) && !r.NoMemory? && 0 < maxDepth ==> strings == old(strings) && ClassesThen(1, old(classes), |old(out)|)
    {
      hide Scan, Core, Current, Path, StackOk, Parse, Ready, Valid, Basic, InDepth, Leaks, ClassesThen, Plainly, Sound;
      if |out| + GROWTH * |input| >= WORD {
        return NoMemory;
      }
      Begin();
      r := MergeValue();
      if !r.Ok? {
        return;
      }
      Commit();
    }

    /** Records lie in the output. */
    lemma Recorded()
      requires Basic()
      ensures forall e :: e in strings || e in classes ==> e.offset < |out|
    {
    }

    method Begin()
      requires Valid() && |input| >= 1 && (lastGood == 0 || lastGood == |out|) && |out| + GROWTH * |input| < WORD
      requires honest ==> Mergeable(input) && StrictlyDown(tracked) && forall x :: x in tracked <==> x in Targets(input, 1)
      modifies `ipos, `lastGood, `depth, `m, `img, `targets
      ensures ipos == 1 && Ready(1, 1) && lastGood == |out| && depth == 0
    {
      hide Scan, Core, Current, Path, StackOk, Parse, Targets, StrictlyDown, Sound;
      lastGood := |out|;
      depth := 0;
      ipos := 1;
      m, img, targets := map[1 := |out|], map[], Targets(input, 1);
      if honest {
        Recorded();
        CurrentStart(input, out, marks, kept, done, strings, classes, mode, tracked, table);
      }
    }

    method Commit()
      requires Ready(ipos, ipos) && (honest ==> Parse(input, 1, [Item]) == Some(ipos))
      modifies `lastGood, `count, `kept, `done
      ensures Valid() && lastGood == 0 && count == (old(count) + 1) % UNSIGNED
      ensures done.body == out && done.docs == old(done).docs + [Doc(Piece(input, 1, 1), ipos, m, img)]
      ensures honest ==> Preserved(old(done.body), old(kept), done.body, kept) && |out| <= old(lastGood) + GROWTH * |input|
    {
      hide Scan, Core, Current, Path, StackOk, Parse;
      if honest {
        CorePreserved(out, lastGood, marks, kept, done, strings, classes, mode);
        CoreDone(Piece(input, 1, 1), input, 1, ipos, out, lastGood, marks, kept, done, m, img, strings, classes, mode);
        CurrentSize(input, 1, ipos, out, lastGood, marks, m, img, strings, classes, mode);
      }
      count := (count + 1) % UNSIGNED;
      lastGood := 0;
      kept, done := marks, Ledger(out, done.docs + [Doc(Piece(input, 1, 1), ipos, m, img)]);
    }

    method SetInput(doc: seq<byte>)
      requires Consistent() && 1 <= |doc|
      modifies `input, `honest
      ensures Consistent() && input == doc && (honest <==> old(honest) && Mergeable(doc))
    {
      hide Scan, Core, Path, Mergeable, Singles;
      honest := honest && Mergeable(doc);
      input := doc;
    }

    /** What callers rely on between operations. */
    ghost predicate Consistent()
      reads this
    {
      Valid() && count < UNSIGNED && (honest ==> count == |done.docs| % UNSIGNED && Singles(done.docs))
    }

    /** Between operations the output starts with what was merged, up to track flags raised since. */
    lemma PrefixKept()
      requires Consistent() && honest
      ensures Preserved(done.body, kept, out, kept) && (lastGood == 0 ==> |out| == |done.body|)
    {
      hide Scan, Core, Path, Basic;
      CorePreserved(out, Base(), marks, kept, done, strings, classes, mode);
    }

    /** The tables as the next document finds them. */
    ghost function Rolled(es: seq<Entry>): seq<Entry>
      reads `lastGood
    {
      if lastGood != 0 then Before(es, lastGood) else es
    }

    /** Appends one document.  `doc` is its body, with the byte before it. */
    method Append(doc: seq<byte>) returns (r: Outcome)
      requires Consistent() && 1 <= |doc|
      modifies this
      ensures !r.Underrun? ==> Consistent() && (honest <==> old(honest) && Mergeable(doc))
      ensures input == doc
      ensures rolled == old(rolled) || (old(lastGood) != 0 && rolled == old(rolled) + [old(Tables())])
      ensures Passing(doc) && old(lastGood) != 0 ==> rolled == old(rolled) + [old(Tables())]
      ensures rolled == old(rolled) ==> stringFloor == old(stringFloor) && classFloor == old(classFloor)
      ensures r.Underrun? <==> rolled != old(rolled) && !Clear(old(Tables()))
      ensures Passing(doc) && !r.Underrun? ==>
        && (old(lastGood) != 0 ==> classFloor == FloorAfter(old(classFloor), |old(classes)|, |old(Rolled(classes))|))
        && (old(lastGood) == 0 ==> classFloor == old(classFloor))
      ensures Passing(doc) && Plainly(1) && 0 < maxDepth && !r.Underrun? && !r.NoMemory? ==>
        strings == old(Rolled(strings)) && ClassesThen(1, old(Rolled(classes)), old(Base()))
      ensures Passing(doc) && !r.Ok? && !r.Underrun? && !r.NoMemory? ==> lastGood == old(Base())
      ensures r.Ok? ==> lastGood == 0 && count == (old(count) + 1) % UNSIGNED
      ensures !r.Ok? ==> done == old(done) && kept == old(kept) && count == old(count)
      ensures !r.Ok? && !r.Underrun? ==> Base() == old(Base())
      ensures r.NoMemory? ==> old(Base()) + GROWTH * |doc| >= WORD
      ensures honest && r.Ok? ==> Preserved(old(done.body), old(kept), done.body, kept) && Base() <= old(Base()) + GROWTH * |doc|
      ensures honest && r.Ok? ==>
        && Parse(doc, 1, [Item]).Some? && done.body == out
        && Inputs(done.docs) == Inputs(old(done).docs) + [Piece(doc, 1, 1)]
      ensures old(honest) && Mergeable(doc) && Passing(doc) && Parse(doc, 1, [Item]).Some? ==>
        r.Ok? || r.TooDeep? || r.NoMemory? || r.Underrun?
      ensures old(honest) && Mergeable(doc) ==>
        && (r.TooDeep? ==> !Shallow(doc, maxDepth)) && (r.Ok? ==> Easy(doc, maxDepth))
        && (Easy(doc, maxDepth) && old(Base()) + GROWTH * |doc| < WORD ==> r.Ok? || r.Underrun?)
    {
      hide Scan, Core, Path, Parse, Valid, Basic, Singles, Sound, Before, ClassesThen, Plainly, Clear, FloorAfter, Shallow, Skips, CanPurge, Rising, Targets, StrictlyDown;
      SetInput(doc);
      r := BuildTrackTable();
      if !r.Ok? {
        return;
      }
      if lastGood != 0 {
        r := Rollback();
        if !r.Ok? {
          return;
        }
      }
      r := MergeDocument();
      CountNext(|old(done).docs|);
      if honest {
        OneMore(old(done).docs, done.docs);
      }
    }

    /** Undoes a failed append, if there was one. */
    method Settle() returns (r: Outcome)
      requires Consistent()
      modifies `out, `strings, `classes, `stringFloor, `classFloor, `marks, `rolled
      ensures r == if old(lastGood) != 0 && !Clear(old(Tables())) then Underrun else Ok
      ensures rolled == (if old(lastGood) != 0 then old(rolled) + [old(Tables())] else old(rolled))
      ensures r.Ok? ==> Consistent() && (lastGood == 0 || lastGood == |out|) && Base() == old(Base())
      ensures rolled == old(rolled) ==> stringFloor == old(stringFloor) && classFloor == old(classFloor)
    {
      hide Scan, Core, Path, Before, Sound, Singles, Basic;
      r := Ok;
      if lastGood != 0 {
        r := Rollback();
      }
    }

    /** Appends several documents, up to the first that fails; n is how many were merged. */
    method AppendAll(src: seq<seq<byte>>) returns (r: Outcome, n: nat)
      requires Consistent() && forall k :: 0 <= k < |src| ==> 1 <= |src[k]|
      modifies this
      ensures n <= |src| && (r.Underrun? ==> n == 0) && (!r.Underrun? ==> (r.Ok? <==> n == |src|))
      ensures rolled == (if old(lastGood) != 0 then old(rolled) + [old(Tables())] else old(rolled))
      ensures r.Underrun? <==> old(lastGood) != 0 && !Clear(old(Tables()))
      ensures rolled == old(rolled) ==> stringFloor == old(stringFloor) && classFloor == old(classFloor)
      ensures !r.Underrun? ==> Consistent() && (r.Ok? && old(lastGood) == 0 ==> lastGood == 0)
      ensures !r.Underrun? && old(honest) && (forall k :: 0 <= k < |src| ==> Mergeable(src[k])) ==> honest
      ensures !r.Underrun? && honest ==> old(honest)
      ensures !r.Underrun? && honest ==> Inputs(done.docs) == Inputs(old(done).docs) + Wholes(src[..n])
      ensures !r.Underrun? && honest ==> Base() <= old(Base()) + GROWTH * Bytes(src)
      ensures !r.Underrun? && old(honest) && AllMergeable(src) ==>
        n <= Lead(src, maxDepth) && (old(Base()) + GROWTH * Bytes(src) < WORD ==> n == Lead(src, maxDepth))
    {
      hide Scan, Core, Path, Parse, Valid, Basic, Sound, Singles, Before, Shallow, Lead, Consistent, Bytes, Wholes, Mergeable;
      n := 0;
      r := Settle();
      if !r.Ok? {
        return;
      }
      assert Inputs(done.docs) + Wholes(src[..0]) == Inputs(done.docs);
      while n < |src|
        invariant 0 <= n <= |src| && Consistent() && (lastGood == 0 || lastGood == |out|) && r.Ok?
        invariant old(lastGood) == 0 ==> lastGood == 0
        invariant rolled == (if old(lastGood) != 0 then old(rolled) + [old(Tables())] else old(rolled))
        invariant old(lastGood) != 0 ==> Clear(old(Tables()))
        invariant rolled == old(rolled) ==> stringFloor == old(stringFloor) && classFloor == old(classFloor)
        invariant old(honest) && (forall k :: 0 <= k < n ==> Mergeable(src[k])) ==> honest
        invariant honest ==> old(honest)
        invariant honest ==> Inputs(done.docs) == Inputs(old(done).docs) + Wholes(src[..n])
        invariant honest ==> Base() <= old(Base()) + GROWTH * Bytes(src[..n])
        invariant old(honest) && AllMergeable(src) ==> forall k :: 0 <= k < n ==> Easy(src[k], maxDepth)
      {
        BytesNext(src, n);
        WholesNext(src, n);
        r := AppendNext(src[n]);
        if !r.Ok? {
          if old(honest) && AllMergeable(src) {
            LeadIs(src, n, maxDepth);
          }
          return;
        }
        n := n + 1;
      }
      assert src[..n] == src;
      if old(honest) && AllMergeable(src) {
        LeadIs(src, n, maxDepth);
      }
    }

    /** One of several documents, behind a clean output. */
    method AppendNext(doc: seq<byte>) returns (r: Outcome)
      requires Consistent() && 1 <= |doc| && (lastGood == 0 || lastGood == |out|)
      modifies `input, `honest, `ipos, `out, `tracked, `table, `strings, `classes, `lastGood, `count, `depth
      modifies `marks, `kept, `done, `m, `img, `targets
      ensures Consistent() && !r.Underrun? && (honest <==> old(honest) && Mergeable(doc)) && (r.Ok? ==> lastGood == 0)
      ensures honest && r.Ok? ==> Inputs(done.docs) == Inputs(old(done).docs) + [Piece(doc, 1, 1)]
      ensures !r.Ok? ==> done == old(done)
      ensures honest ==> Base() <= old(Base()) + GROWTH * |doc|
      ensures old(honest) && Mergeable(doc) ==>
        (r.Ok? ==> Easy(doc, maxDepth)) && (Easy(doc, maxDepth) && old(Base()) + GROWTH * |doc| < WORD ==> r.Ok?)
    {
      hide Scan, Core, Path, Parse, Valid, Basic, Sound, Singles, Before, Shallow;
      SetInput(doc);
      r := BuildTrackTable();
      if !r.Ok? {
        return;
      }
      ghost var docs0 := done.docs;
      CountNext(|docs0|);
      r := MergeDocument();
      if honest {
        OneMore(docs0, done.docs);
      }
    }

    /** The finished body: what a failed append left behind is cut off, and the count of documents is
        written over the padding.  It is right exactly when every class name is spelled out. */
    method Finish() returns (body: seq<byte>)
      requires Consistent()
      ensures COUNT_AT + |Write(count)| <= Base() <= |out| && body == Finished(out[..Base()], count)
      ensures honest && |done.docs| <= MAX_COUNT ==>
        && Laid(body, done.docs, kept, mode, |Write(|done.docs|)|)
        && (Right(body, Inputs(done.docs), |done.docs|) <==> AllSpelled(done.docs))
        && (AllSpelled(done.docs) ==>
            forall d: nat, k :: 0 <= k < |AllTrees(Inputs(done.docs), d)| ==> Clean(AllTrees(Inputs(done.docs), d)[k]))
    {
      hide Scan, Core, Path, Parse, Meaning, Clean, Laid, Singles, Right, AllSpelled, AllTrees;
      var end := if lastGood != 0 then lastGood else |out|;
      CountFits(count);
      body := PutCount(out[..end], count);
      if honest && |done.docs| <= MAX_COUNT {
        CoreUndone(out, end, marks, kept, done, strings, classes, mode);
        FinishedRight(out[..end], kept, kept, done, Before(strings, end), Before(classes, end), mode);
      }
    }

    lemma OneMore(was: seq<Doc>, docs: seq<Doc>)
      requires Singles(was)
      ensures docs == was ==> Singles(docs)
      ensures |docs| > 0 && docs == was + [docs[|docs| - 1]] && Single(docs[|docs| - 1]) ==> Singles(docs)
    {
      hide Parse;
    }

    lemma CountNext(n: nat)
      ensures (n % UNSIGNED + 1) % UNSIGNED == (n + 1) % UNSIGNED
    {
    }
  }

  /** Numbers of a fixed size and short strings, whose length the first pass takes on trust. */
  predicate Fixed(tag: int) {
    34 <= tag <= 36 || 96 <= tag
  }

  /** Every tag can be read, but for one that is cut short at the end. */
  ghost predicate Skips(doc: seq<byte>) {
    SkipsTo(doc, |doc|)
  }

  ghost predicate SkipsTo(doc: seq<byte>, p: nat) {
    forall q: nat :: Path(doc, 1, q) && q < p && q < |doc| ==> Scan(doc, q).Some? || Fixed(doc[q] % 128)
  }

  lemma SkipsStart(doc: seq<byte>)
    ensures Path(doc, 1, 1) && SkipsTo(doc, 1)
  {
    hide Scan;
    PathSelf(doc, 1);
    forall q: nat | Path(doc, 1, q)
      ensures q >= 1
    {
      PathOrder(doc, 1, q);
    }
  }

  lemma SkipsOn(doc: seq<byte>, p: nat)
    requires p < |doc| && Path(doc, 1, p)
    ensures Skips(doc) ==> Scan(doc, p).Some? || Fixed(doc[p] % 128)
    ensures SkipsTo(doc, p) && Fixed(doc[p] % 128) && Scan(doc, p).None? ==> Skips(doc) && forall e: nat :: SkipsTo(doc, e)
    ensures SkipsTo(doc, p) && Scan(doc, p).Some? ==> SkipsTo(doc, Scan(doc, p).value.1)
  {
    hide Scan, Path;
    forall q: nat | Path(doc, 1, q) && p < q
      ensures Scan(doc, p).Some? && Scan(doc, p).value.1 <= q
    {
      PathNoGap(doc, 1, p, q);
    }
  }

  /** A document that is made of tags to its last byte. */
  lemma PathSkips(doc: seq<byte>)
    requires Path(doc, 1, |doc|)
    ensures Skips(doc)
  {
    hide Scan, Path;
    forall q: nat | Path(doc, 1, q) && q < |doc|
      ensures Scan(doc, q).Some?
    {
      PathNoGap(doc, 1, q, |doc|);
    }
  }

  /** The first pass gets through the document. */
  ghost predicate Passing(doc: seq<byte>) {
    Sound(doc) && Skips(doc)
  }

  /** A document that nothing but an overrun of the tables or of the memory keeps from being merged. */
  ghost predicate Easy(doc: seq<byte>, maxDepth: nat) {
    Mergeable(doc) && Passing(doc) && Parse(doc, 1, [Item]).Some? && Shallow(doc, maxDepth)
  }

  /** A document that is one item, merged whole. */
  ghost predicate Single(d: Doc) {
    d.part.at == 1 && d.part.n == 1 && Parse(d.part.inp, 1, [Item]) == Some(d.end)
  }

  ghost predicate Singles(docs: seq<Doc>) {
    forall k :: 0 <= k < |docs| ==> Single(docs[k])
  }

  /** The count, written over the padding. */
  method PutCount(b: seq<byte>, count: nat) returns (body: seq<byte>)
    requires COUNT_AT + |Write(count)| <= |b|
    ensures body == Finished(b, count)
  {
    body := b;
    var pos, n: nat := COUNT_AT, count;
    while n >= HIGH
      invariant |body| == |b| && COUNT_AT <= pos && pos + |Write(n)| == COUNT_AT + |Write(count)|
      invariant body[..pos] + Write(n) == b[..COUNT_AT] + Write(count)
      invariant body[pos..] == b[pos..]
      decreases n
    {
      var was := body;
      body := body[pos := n % HIGH + HIGH];
      assert body[..pos + 1] == was[..pos] + [n % HIGH + HIGH];
      pos, n := pos + 1, n / HIGH;
    }
    ghost var was := body;
    body := body[pos := n];
    assert body == was[..pos] + [n] + was[pos + 1..];
    assert was[pos + 1..] == was[pos..][1..] == b[pos + 1..];
  }

  // ----- what a finished run means -----

  /** Every class name in a merged item is spelled out. */
  ghost predicate AllSpelled(docs: seq<Doc>) {
    forall k :: 0 <= k < |docs| ==> Spelled(docs[k].part.inp, docs[k].end)
  }

  lemma {:induction false} SinglesTotal(docs: seq<Doc>, k: nat)
    requires Singles(docs) && k <= |docs|
    ensures Total(docs, k) == k
    decreases k
  {
    hide Parse;
    if k > 0 {
      SinglesTotal(docs, k - 1);
      assert Single(docs[k - 1]);
    }
  }

  lemma OneItem()
    ensures Items(1) == [Item]
  {
  }

  /** What one document with a class name that is a COPY lacks: nothing is left to fill, and an item is over. */
  lemma SingleGap(d: Doc)
    requires Single(d) && Sound(d.part.inp)
    ensures Gap(d) <= 0
    ensures Gap(d) == 0 <==> Spelled(d.part.inp, d.end)
  {
    hide Scan, Parse, Sound;
    ParseBalance(d.part.inp, 1, [Item]);
    PathSelf(d.part.inp, 1);
    NoneBorrowed(d.part.inp, 1, d.end);
  }

  lemma {:induction false} SinglesGaps(docs: seq<Doc>, k: nat)
    requires Singles(docs) && k <= |docs| && forall i :: 0 <= i < k ==> Sound(docs[i].part.inp)
    ensures Gaps(docs, k) <= 0
    ensures Gaps(docs, k) == 0 ==> forall i :: 0 <= i < k ==> Spelled(docs[i].part.inp, docs[i].end)
    decreases k
  {
    hide Sound, Spelled, Gap, Single;
    if k > 0 {
      SinglesGaps(docs, k - 1);
      assert Single(docs[k - 1]);
      SingleGap(docs[k - 1]);
    }
  }

  lemma SpelledWhole(docs: seq<Doc>)
    requires Singles(docs) && AllSpelled(docs)
    ensures AllWhole(docs)
  {
    hide Parse, Spelled;
    OneItem();
    forall k | 0 <= k < |docs|
      ensures Whole(docs[k])
    {
      assert Single(docs[k]) && Spelled(docs[k].part.inp, docs[k].end);
    }
  }

  lemma CoreDocs(buf: seq<byte>, marks: set<nat>, kept: set<nat>, done: Ledger, strings: seq<Entry>, classes: seq<Entry>, mode: Mode)
    requires Core(buf, |buf|, marks, kept, done, strings, classes, mode)
    ensures forall k :: 0 <= k < |done.docs| ==> Sound(done.docs[k].part.inp)
    ensures !mode.Loose? ==> AllKept(done.docs, buf)
  {
    hide Scan, Mapped, Sound, FormsKept, Covered, Exact, Flagged;
    forall k | 0 <= k < |done.docs|
      ensures Sound(done.docs[k].part.inp)
      ensures !mode.Loose? ==> FormsKept(done.docs[k].part.inp, buf, done.docs[k].img)
    {
      assert DocOk(done.docs, k, buf, kept, mode);
    }
  }

  lemma FinishedRight(buf: seq<byte>, marks: set<nat>, kept: set<nat>, done: Ledger,
                      strings: seq<Entry>, classes: seq<Entry>, mode: Mode)
    requires Core(buf, |buf|, marks, kept, done, strings, classes, mode) && !mode.Loose?
    requires Singles(done.docs) && |done.docs| <= MAX_COUNT
    ensures |Write(|done.docs|)| <= 5
    ensures var n := |done.docs|;
            && Laid(Finished(buf, n), done.docs, kept, mode, |Write(n)|)
            && (Right(Finished(buf, n), Inputs(done.docs), n) <==> AllSpelled(done.docs))
    ensures AllSpelled(done.docs) ==>
      forall d: nat, k :: 0 <= k < |AllTrees(Inputs(done.docs), d)| ==> Clean(AllTrees(Inputs(done.docs), d)[k])
  {
    var n := |done.docs|;
    SinglesTotal(done.docs, n);
    FinishedLaid(buf, marks, kept, done, strings, classes, mode);
    CoreDocs(buf, marks, kept, done, strings, classes, mode);
    hide Scan, Core, Parse, Meaning, Clean, Laid, Write, Finished, AllWhole, AllKept, AllTrees, Singles, Total, Sound;
    var body := Finished(buf, n);
    if AllSpelled(done.docs) {
      SpelledWhole(done.docs);
      FinishedMeaning(buf, marks, kept, done, strings, classes, mode);
    } else if n > 0 && Right(body, Inputs(done.docs), n) {
      LaidCounts(body, done.docs, kept, mode, |Write(n)|);
      SinglesGaps(done.docs, n);
    }
  }

  /** Documents, each merged whole. */
  function Wholes(docs: seq<seq<byte>>): (ps: seq<Piece>)
    ensures |ps| == |docs| && forall k :: 0 <= k < |docs| ==> ps[k] == Piece(docs[k], 1, 1)
  {
    seq(|docs|, k requires 0 <= k < |docs| => Piece(docs[k], 1, 1))
  }

  lemma WholesNext(src: seq<seq<byte>>, n: nat)
    requires n < |src|
    ensures Wholes(src[..n + 1]) == Wholes(src[..n]) + [Piece(src[n], 1, 1)]
  {
    assert src[..n + 1] == src[..n] + [src[n]];
  }

  // ----- how much of a run succeeds -----

  ghost predicate AllMergeable(docs: seq<seq<byte>>) {
    forall k :: 0 <= k < |docs| ==> Mergeable(docs[k])
  }

  /** How many documents there are before the first that is not easy. */
  ghost function Lead(docs: seq<seq<byte>>, maxDepth: nat): (n: nat)
    ensures n <= |docs|
  {
    if docs == [] || !Easy(docs[0], maxDepth) then 0 else 1 + Lead(docs[1..], maxDepth)
  }

  lemma {:induction false} LeadIs(docs: seq<seq<byte>>, n: nat, maxDepth: nat)
    requires n <= |docs| && forall k :: 0 <= k < n ==> Easy(docs[k], maxDepth)
    ensures n <= Lead(docs, maxDepth)
    ensures n == |docs| || !Easy(docs[n], maxDepth) ==> Lead(docs, maxDepth) == n
    decreases n
  {
    hide Easy;
    if n > 0 {
      forall k | 0 <= k < n - 1
        ensures Easy(docs[1..][k], maxDepth)
      {
        assert Easy(docs[k + 1], maxDepth);
      }
      LeadIs(docs[1..], n - 1, maxDepth);
    }
  }

  // ----- whole runs -----

  datatype Op = One(doc: seq<byte>) | All(src: seq<seq<byte>>)

  function Given(op: Op): seq<seq<byte>> {
    match op
    case One(doc) => [doc]
    case All(src) => src
  }

  ghost predicate OpsMergeable(ops: seq<Op>) {
    forall k :: 0 <= k < |ops| ==> AllMergeable(Given(ops[k]))
  }

  /** The documents merged, when the k-th operation merged the first ns[k] of those it was given. */
  function Merged(ops: seq<Op>, ns: seq<nat>): seq<seq<byte>>
    requires |ns| <= |ops|
    requires forall k :: 0 <= k < |ns| ==> ns[k] <= |Given(ops[k])|
  {
    if ns == [] then [] else Merged(ops, ns[..|ns| - 1]) + Given(ops[|ns| - 1])[..ns[|ns| - 1]]
  }

  lemma MergedNext(ops: seq<Op>, ns: seq<nat>, n: nat)
    requires |ns| < |ops| && n <= |Given(ops[|ns|])|
    requires forall k :: 0 <= k < |ns| ==> ns[k] <= |Given(ops[k])|
    ensures Merged(ops, ns + [n]) == Merged(ops, ns) + Given(ops[|ns|])[..n]
  {
    assert (ns + [n])[..|ns|] == ns;
  }

  function BytesOf(ops: seq<Op>, n: nat): nat
    requires n <= |ops|
  {
    if n == 0 then 0 else BytesOf(ops, n - 1) + Bytes(Given(ops[n - 1]))
  }

  lemma {:induction false} BytesOfMore(ops: seq<Op>, n: nat, n': nat)
    requires n <= n' <= |ops|
    ensures BytesOf(ops, n) <= BytesOf(ops, n')
    decreases n'
  {
    hide Given, Bytes;
    if n < n' {
      BytesOfMore(ops, n, n' - 1);
    }
  }

  /** What several documents mean, each on its own. */
  ghost function DocTrees(docs: seq<seq<byte>>, d: nat): (ts: seq<Tree>)
    ensures |ts| == |docs| && forall k :: 0 <= k < |docs| ==> ts[k] == Meaning(docs[k], 1, d)
  {
    seq(|docs|, k requires 0 <= k < |docs| => Meaning(docs[k], 1, d))
  }

  /** The body is one well-formed item, the array of what the documents mean. */
  ghost predicate MeansAll(body: seq<byte>, docs: seq<seq<byte>>) {
    && (docs != [] ==> Parse(body, 1, [Item]) == Some(|body|))
    && forall d: nat :: Meaning(body, 1, d + 2) == ArrayOf(DocTrees(docs, d))
  }

  /** No object of the document has a COPY as its class name. */
  ghost predicate NamesSpelled(doc: seq<byte>) {
    Parse(doc, 1, [Item]).Some? ==> Spelled(doc, Parse(doc, 1, [Item]).value)
  }

  ghost predicate AllNamesSpelled(docs: seq<seq<byte>>) {
    forall k :: 0 <= k < |docs| ==> NamesSpelled(docs[k])
  }

  lemma OneTree(doc: seq<byte>, d: nat)
    requires Parse(doc, 1, [Item]).Some?
    ensures PartTrees(Piece(doc, 1, 1), d) == [Meaning(doc, 1, d)]
  {
    hide Scan, Meaning, Parse;
    OneItem();
    assert [Item][1..] == [];
    assert Chain(doc, Parse(doc, 1, [Item]).value, []) == Some([]);
    assert Chain(doc, 1, [Item]) == Some([1] + []);
    assert [1] + [] == [1];
  }

  lemma {:induction false} WholesTrees(docs: seq<seq<byte>>, k: nat, d: nat)
    requires k <= |docs| && forall i :: 0 <= i < |docs| ==> Parse(docs[i], 1, [Item]).Some?
    ensures TreesOf(Wholes(docs), k, d) == DocTrees(docs, d)[..k]
    decreases k
  {
    hide Meaning, Parse, PartTrees;
    if k > 0 {
      WholesTrees(docs, k - 1, d);
      OneTree(docs[k - 1], d);
      assert DocTrees(docs, d)[..k] == DocTrees(docs, d)[..k - 1] + [Meaning(docs[k - 1], 1, d)];
    }
  }

  /** What was merged, in terms of the documents given. */
  lemma RunMeaning(body: seq<byte>, done: seq<Doc>, docs: seq<seq<byte>>)
    requires Singles(done) && Inputs(done) == Wholes(docs)
    ensures Right(body, Inputs(done), |done|) <==> MeansAll(body, docs)
    ensures AllSpelled(done) <==> AllNamesSpelled(docs)
  {
    hide Meaning, Parse, Spelled, TreesOf;
    assert |done| == |docs|;
    forall k | 0 <= k < |docs|
      ensures done[k].part == Piece(docs[k], 1, 1) && Parse(docs[k], 1, [Item]) == Some(done[k].end)
    {
      assert Inputs(done)[k] == Wholes(docs)[k];
      assert Single(done[k]);
    }
    forall d: nat
      ensures AllTrees(Inputs(done), d) == DocTrees(docs, d)
    {
      WholesTrees(docs, |docs|, d);
      assert DocTrees(docs, d)[..|docs|] == DocTrees(docs, d);
    }
  }

  /** Any run of appends, some of which may fail, and a finish.  It is broken off exactly when a rollback
      meets a table whose newest arena is empty; otherwise the body means the array of the documents whose
      merging succeeded, in order, and of nothing else, exactly when their class names are spelled out. */
  method Session(dedupe: bool, maxDepth: nat, hash: seq<byte> -> nat, ops: seq<Op>)
    returns (ok: bool, body: seq<byte>, ns: seq<nat>, ghost rolls: seq<Occupancy>)
    requires forall k, j :: 0 <= k < |ops| && 0 <= j < |Given(ops[k])| ==> 1 <= |Given(ops[k])[j]|
    ensures |ns| <= |ops| && (ok <==> |ns| == |ops|)
    ensures forall k :: 0 <= k < |ns| ==> ns[k] <= |Given(ops[k])|
    ensures ok <==> forall k :: 0 <= k < |rolls| ==> Clear(rolls[k])
    ensures !dedupe || |rolls| <= 1 ==> ok
    ensures |rolls| <= |ns|
    ensures (forall k :: 0 <= k < |ns| ==> ns[k] == |Given(ops[k])|) ==> rolls == []
    ensures ok && OpsMergeable(ops) && |Merged(ops, ns)| <= MAX_COUNT ==>
      (MeansAll(body, Merged(ops, ns)) <==> AllNamesSpelled(Merged(ops, ns)))
    ensures OpsMergeable(ops) ==> forall k :: 0 <= k < |ns| ==> ns[k] <= Lead(Given(ops[k]), maxDepth)
    ensures OpsMergeable(ops) && 8 + 11 * BytesOf(ops, |ops|) < 0x1_0000_0000_0000_0000 ==>
      forall k :: 0 <= k < |ns| ==> ns[k] == Lead(Given(ops[k]), maxDepth)
  {
    hide Mergeable, Meaning, Scan, Core, Path, Parse, Laid, Merged, Finished, Clean, Given, Write, Merger.Consistent, Lead, Bytes,
      Singles, AllSpelled, AllNamesSpelled, MeansAll, Right, BytesOf, Clear, Wholes, DocTrees, Spelled;
    var mrg := new Merger(dedupe, maxDepth, hash);
    ns, rolls, body, ok := [], [], [], true;
    MergedNone(ops);
    while |ns| < |ops|
      invariant |ns| <= |ops| && fresh(mrg) && mrg.Consistent() && mrg.rolled == rolls && mrg.dedupe == dedupe && mrg.maxDepth == maxDepth
      invariant forall k :: 0 <= k < |ns| ==> ns[k] <= |Given(ops[k])|
      invariant forall k :: 0 <= k < |rolls| ==> Clear(rolls[k])
      invariant |rolls| + (if mrg.lastGood == 0 then 0 else 1) <= |ns|
      invariant rolls == [] ==> mrg.stringFloor == 0 && mrg.classFloor == 0
      invariant (forall k :: 0 <= k < |ns| ==> ns[k] == |Given(ops[k])|) ==> rolls == [] && mrg.lastGood == 0
      invariant OpsMergeable(ops) ==>
        mrg.honest && Inputs(mrg.done.docs) == Wholes(Merged(ops, ns)) && mrg.Base() <= FIRST + GROWTH * BytesOf(ops, |ns|)
      invariant OpsMergeable(ops) ==> forall k :: 0 <= k < |ns| ==> ns[k] <= Lead(Given(ops[k]), maxDepth)
      invariant OpsMergeable(ops) && FIRST + GROWTH * BytesOf(ops, |ops|) < WORD ==>
        forall k :: 0 <= k < |ns| ==> ns[k] == Lead(Given(ops[k]), maxDepth)
      decreases |ops| - |ns|
    {
      BytesOfNext(ops, |ns|);
      NoTables(mrg);
      FirstClear(mrg);
      var r, n := Perform(mrg, ops[|ns|]);
      rolls := mrg.rolled;
      if r.Underrun? {
        assert !Clear(rolls[|rolls| - 1]);
        return false, [], ns, rolls;
      }
      MergedNext(ops, ns, n);
      WholesJoin(Merged(ops, ns), Given(ops[|ns|])[..n]);
      ns := ns + [n];
    }
    body := mrg.Finish();
    if OpsMergeable(ops) && |Merged(ops, ns)| <= MAX_COUNT {
      ConsistentSingles(mrg);
      RunMeaning(body, mrg.done.docs, Merged(ops, ns));
    }
  }

  lemma BytesOfNext(ops: seq<Op>, n: nat)
    requires n < |ops|
    ensures BytesOf(ops, n + 1) == BytesOf(ops, n) + Bytes(Given(ops[n])) && BytesOf(ops, n + 1) <= BytesOf(ops, |ops|)
  {
    hide Given, Bytes;
    BytesOfMore(ops, n + 1, |ops|);
  }

  lemma WholesJoin(a: seq<seq<byte>>, b: seq<seq<byte>>)
    ensures Wholes(a + b) == Wholes(a) + Wholes(b)
  {
  }

  /** The first rollback finds the tables in order. */
  lemma FirstClear(mrg: Merger)
    ensures mrg.stringFloor == 0 && mrg.classFloor == 0 ==> Clear(mrg.Tables())
  {
    PurgeAfter(0, |mrg.strings|, |mrg.strings|);
    PurgeAfter(0, |mrg.classes|, |mrg.classes|);
  }

  lemma NoTables(mrg: Merger)
    requires mrg.Consistent()
    ensures !mrg.dedupe ==> Clear(mrg.Tables())
  {
    hide Core, Singles;
  }

  lemma ConsistentSingles(mrg: Merger)
    requires mrg.Consistent() && mrg.honest
    ensures Singles(mrg.done.docs)
  {
    hide Core, Singles;
  }

  lemma MergedNone(ops: seq<Op>)
    ensures Merged(ops, []) == [] && Wholes([]) == [] && BytesOf(ops, 0) == 0
  {
  }

  /** One operation of a run: how many of its documents were merged. */
  method Perform(mrg: Merger, op: Op) returns (r: Outcome, n: nat)
    requires mrg.Consistent() && forall j :: 0 <= j < |Given(op)| ==> 1 <= |Given(op)[j]|
    modifies mrg
    ensures n <= |Given(op)| && (r.Underrun? ==> n == 0)
    ensures mrg.rolled == old(mrg.rolled) || (old(mrg.lastGood) != 0 && mrg.rolled == old(mrg.rolled) + [old(mrg.Tables())])
    ensures r.Underrun? <==> mrg.rolled != old(mrg.rolled) && !Clear(old(mrg.Tables()))
    ensures mrg.rolled == old(mrg.rolled) ==> mrg.stringFloor == old(mrg.stringFloor) && mrg.classFloor == old(mrg.classFloor)
    ensures !r.Underrun? ==> mrg.Consistent()
    ensures !r.Underrun? && old(mrg.lastGood) == 0 && n == |Given(op)| ==> mrg.lastGood == 0
    ensures !r.Underrun? && old(mrg.honest) && AllMergeable(Given(op)) ==>
      && mrg.honest && Inputs(mrg.done.docs) == Inputs(old(mrg.done).docs) + Wholes(Given(op)[..n])
      && mrg.Base() <= old(mrg.Base()) + GROWTH * Bytes(Given(op))
      && n <= Lead(Given(op), mrg.maxDepth)
      && (old(mrg.Base()) + GROWTH * Bytes(Given(op)) < WORD ==> n == Lead(Given(op), mrg.maxDepth))
  {
    hide Mergeable, Meaning, Scan, Core, Path, Parse, Merger.Consistent, Passing, Shallow, Easy, Clear;
    match op {
      case One(doc) =>
        assert Given(op) == [doc] && Given(op)[0] == doc;
        r := mrg.Append(doc);
        n := if r.Ok? then 1 else 0;
        OneDoc(doc, mrg.maxDepth);
        assert [doc][..1] == [doc] && [doc][..0] == [];
        assert Inputs(old(mrg.done).docs) + [] == Inputs(old(mrg.done).docs);
        assert Wholes([doc]) == [Piece(doc, 1, 1)] && Wholes([]) == [];
      case All(src) =>
        assert Given(op) == src;
        r, n := mrg.AppendAll(src);
    }
  }

  lemma OneDoc(doc: seq<byte>, maxDepth: nat)
    ensures Bytes([doc]) == |doc| && Lead([doc], maxDepth) == if Easy(doc, maxDepth) then 1 else 0
  {
    hide Easy;
    assert [doc][..0] == [] && [doc][1..] == [];
  }
}
