/** `FileHandler` of main.py: the line-based text format. Writing is modelled
    as the text the handler produces (`save`, `add`) and, for `edit`, as the
    text its loop writes over the lines it read back. Each record occupies a
    block of four labelled lines and a blank line. */
module Storage {
  import opened Text
  import opened Ledger

  const DateLabel: string := "Дата: "
  const CategoryLabel: string := "Категория: "
  const AmountLabel: string := "Сумма: "
  const DescriptionLabel: string := "Описание: "

  /** The four labelled field texts of a record, without line terminators. */
  function FieldTexts(r: Record): seq<string>
  {
    [DateLabel + r.date, CategoryLabel + r.category,
     AmountLabel + IntToDecimal(r.amount), DescriptionLabel + r.description]
  }

  /** The block `save` writes per record: the fields and an empty part joined by `\n`. */
  function BlockText(r: Record): string
  {
    Join("\n", FieldTexts(r) + [""])
  }

  /** The list comprehension of `save`: one block per record, in order. */
  function BlockTexts(rs: seq<Record>): (bs: seq<string>)
    ensures |bs| == |rs|
  {
    seq(|rs|, i requires 0 <= i < |rs| => BlockText(rs[i]))
  }

  /** `save`: the blocks joined by `\n`, so no blank line before the first
      block and none after the last. */
  function SaveText(rs: seq<Record>): string
  {
    Join("\n", BlockTexts(rs))
  }

  /** `add`: an empty part, the fields and an empty part joined by `\n`. */
  function AddText(r: Record): string
  {
    Join("\n", [""] + FieldTexts(r) + [""])
  }

  /** The block `edit` writes: the fields and two empty parts joined by `\n`. */
  function EditBlockText(r: Record): string
  {
    Join("\n", FieldTexts(r) + ["", ""])
  }

  // ---------------------------------------------------------------------
  // The same texts as lines

  /** The four field lines of a record as `readlines` returns them. */
  function FieldLines(r: Record): seq<string>
  {
    [DateLabel + r.date + "\n", CategoryLabel + r.category + "\n",
     AmountLabel + IntToDecimal(r.amount) + "\n", DescriptionLabel + r.description + "\n"]
  }

  /** A record's five lines: its fields and the blank separator line. */
  function BlockLines(r: Record): seq<string>
  {
    FieldLines(r) + ["\n"]
  }

  /** The five-line blocks of all records, one after another. */
  function AllBlockLines(rs: seq<Record>): (ls: seq<string>)
    ensures |ls| == 5 * |rs|
  {
    if rs == [] then [] else BlockLines(rs[0]) + AllBlockLines(rs[1..])
  }

  /** The lines of a saved file: every block but the last has its separator line. */
  function SavedLines(rs: seq<Record>): (ls: seq<string>)
    requires rs != []
    ensures |ls| == 5 * |rs| - 1
  {
    AllBlockLines(rs[..|rs| - 1]) + FieldLines(rs[|rs| - 1])
  }

  lemma {:induction false} AllBlockLinesConcat(a: seq<Record>, b: seq<Record>)
    ensures AllBlockLines(a + b) == AllBlockLines(a) + AllBlockLines(b)
  {
    if a != [] {
      assert (a + b)[1..] == a[1..] + b;
      AllBlockLinesConcat(a[1..], b);
    } else {
      assert a + b == b;
    }
  }

  /** The block lines of a list are its saved lines and one last separator line. */
  lemma SavedLinesThenSeparator(rs: seq<Record>)
    requires rs != []
    ensures AllBlockLines(rs) == SavedLines(rs) + ["\n"]
  {
    var last := rs[|rs| - 1];
    assert rs[..|rs| - 1] + [last] == rs;
    AllBlockLinesConcat(rs[..|rs| - 1], [last]);
    AllBlockLinesSingle(last);
  }

  /** Saving one more record adds a separator line and the record's field lines. */
  lemma SavedLinesSnoc(rs: seq<Record>, r: Record)
    requires rs != []
    ensures SavedLines(rs + [r]) == SavedLines(rs) + ["\n"] + FieldLines(r)
  {
    assert (rs + [r])[..|rs|] == rs;
    SavedLinesThenSeparator(rs);
  }

  lemma AllBlockLinesSingle(r: Record)
    ensures AllBlockLines([r]) == BlockLines(r)
  {
    assert [r][1..] == [];
  }

  /** A value that fits on one line: no `\n`, and no `\r`, which text mode
      would read as a line end. */
  predicate SingleLine(v: string)
  {
    '\n' !in v && '\r' !in v
  }

  /** Fields that can be written as single lines. */
  predicate LineSafe(r: Record)
  {
    SingleLine(r.date) && SingleLine(r.category) && SingleLine(r.description)
  }

  // ---------------------------------------------------------------------
  // Text and lines agree

  /** A block written by `save` is its four field lines. */
  lemma BlockTextIsFieldLines(r: Record)
    ensures BlockText(r) == Concat(FieldLines(r))
  {
    JoinThenEmpty("\n", FieldTexts(r));
    assert Terminated(FieldTexts(r), "\n") == FieldLines(r);
  }

  /** The text `add` writes is the `save` block with a blank line in front of it. */
  lemma AddTextIsBlankThenBlock(r: Record)
    ensures AddText(r) == "\n" + BlockText(r)
  {
    var f := FieldTexts(r);
    assert ([""] + f + [""])[1..] == f + [""];
  }

  /** The text `edit` writes is the `save` block followed by a blank line. */
  lemma EditBlockIsBlockLines(r: Record)
    ensures EditBlockText(r) == BlockText(r) + "\n"
    ensures EditBlockText(r) == Concat(BlockLines(r))
  {
    var f := FieldTexts(r);
    JoinSnoc("\n", f + [""], "");
    assert f + [""] + [""] == f + ["", ""];
    BlockTextIsFieldLines(r);
    ConcatAppend(FieldLines(r), ["\n"]);
  }

  lemma BlockTextsSnoc(rs: seq<Record>, r: Record)
    ensures BlockTexts(rs + [r]) == BlockTexts(rs) + [BlockText(r)]
  {
  }

  /** `save` of one more record adds a separator and that record's block. */
  lemma SaveTextSnoc(rs: seq<Record>, r: Record)
    requires rs != []
    ensures SaveText(rs + [r]) == SaveText(rs) + "\n" + BlockText(r)
  {
    BlockTextsSnoc(rs, r);
    JoinSnoc("\n", BlockTexts(rs), BlockText(r));
  }

  lemma SaveTextSingle(r: Record)
    ensures SaveText([r]) == Concat(SavedLines([r]))
  {
    BlockTextIsFieldLines(r);
    assert BlockTexts([r]) == [BlockText(r)];
    assert SavedLines([r]) == FieldLines(r);
  }

  lemma SaveTextSnocLines(init: seq<Record>, last: Record)
    requires init != [] && SaveText(init) == Concat(SavedLines(init))
    ensures SaveText(init + [last]) == Concat(SavedLines(init + [last]))
  {
    BlockTextIsFieldLines(last);
    SaveTextSnoc(init, last);
    SavedLinesSnoc(init, last);
    ConcatAppend(SavedLines(init) + ["\n"], FieldLines(last));
    ConcatAppend(SavedLines(init), ["\n"]);
  }

  /** The saved text is the concatenation of its lines. */
  lemma {:induction false} SaveTextIsSavedLines(rs: seq<Record>)
    requires rs != []
    ensures SaveText(rs) == Concat(SavedLines(rs))
    decreases |rs|
  {
    var last := rs[|rs| - 1];
    var init := rs[..|rs| - 1];
    assert rs == init + [last];
    if init == [] {
      SaveTextSingle(last);
    } else {
      SaveTextIsSavedLines(init);
      SaveTextSnocLines(init, last);
    }
  }

  lemma FieldLinesTerminated(r: Record)
    requires LineSafe(r)
    ensures AllTerminated(BlockLines(r))
  {
    DecimalChars(r.amount);
    var ls := BlockLines(r);
    forall i | 0 <= i < |ls|
      ensures IsTerminatedLine(ls[i])
    {
      if i == 0 {
        TerminatedLine(DateLabel, r.date);
      } else if i == 1 {
        TerminatedLine(CategoryLabel, r.category);
      } else if i == 2 {
        TerminatedLine(AmountLabel, IntToDecimal(r.amount));
      } else if i == 3 {
        TerminatedLine(DescriptionLabel, r.description);
      }
    }
  }

  lemma TerminatedLine(tag: string, v: string)
    requires SingleLine(tag) && SingleLine(v)
    ensures IsTerminatedLine(tag + v + "\n")
  {
    var l := tag + v + "\n";
    forall k | 0 <= k < |l| - 1
      ensures l[k] != '\n'
    {
      if k < |tag| {
        assert l[k] == tag[k];
      } else {
        assert l[k] == v[k - |tag|];
      }
    }
  }

  lemma {:induction false} AllBlockLinesTerminated(rs: seq<Record>)
    requires forall i :: 0 <= i < |rs| ==> LineSafe(rs[i])
    ensures AllTerminated(AllBlockLines(rs))
  {
    if rs != [] {
      FieldLinesTerminated(rs[0]);
      AllBlockLinesTerminated(rs[1..]);
    }
  }

  /** Reading back a saved file gives its block lines, the last block without
      its separator line. */
  lemma ReadSaved(rs: seq<Record>)
    requires rs != [] && forall i :: 0 <= i < |rs| ==> LineSafe(rs[i])
    ensures ReadLines(SaveText(rs)) == SavedLines(rs)
  {
    SaveTextIsSavedLines(rs);
    AllBlockLinesTerminated(rs);
    SavedLinesThenSeparator(rs);
    assert forall i :: 0 <= i < |SavedLines(rs)| ==> SavedLines(rs)[i] == AllBlockLines(rs)[i];
    ReadLinesOfConcat(SavedLines(rs));
  }

  /** Reading back the text of every block gives those blocks' lines. */
  lemma ReadAllBlockLines(rs: seq<Record>)
    requires forall i :: 0 <= i < |rs| ==> LineSafe(rs[i])
    ensures ReadLines(Concat(AllBlockLines(rs))) == AllBlockLines(rs)
  {
    AllBlockLinesTerminated(rs);
    ReadLinesOfConcat(AllBlockLines(rs));
  }

  /** Reading back a saved file that has one more line end at its close
      gives every block with its separator line. */
  lemma ReadSavedThenSeparator(rs: seq<Record>)
    requires rs != [] && forall i :: 0 <= i < |rs| ==> LineSafe(rs[i])
    ensures ReadLines(SaveText(rs) + "\n") == AllBlockLines(rs)
  {
    ReadAllBlockLines(rs);
    SavedThenSeparatorText(rs);
  }

  /** All blocks with their separator lines are the saved text and a line end. */
  lemma SavedThenSeparatorText(rs: seq<Record>)
    requires rs != []
    ensures Concat(AllBlockLines(rs)) == SaveText(rs) + "\n"
  {
    SaveTextIsSavedLines(rs);
    SavedLinesThenSeparator(rs);
    ConcatAppend(SavedLines(rs), ["\n"]);
    ConcatSingle("\n");
  }

  /** Reading back what `add` wrote into an empty file: a blank line, then
      the record's field lines. */
  lemma ReadAddText(r: Record)
    requires LineSafe(r)
    ensures ReadLines(AddText(r)) == ["\n"] + FieldLines(r)
  {
    AddTextIsBlankThenBlock(r);
    BlockTextIsFieldLines(r);
    var ls := ["\n"] + FieldLines(r);
    assert ls[1..] == FieldLines(r);
    assert Concat(ls) == "\n" + Concat(FieldLines(r));
    FieldLinesTerminated(r);
    assert forall i :: 0 < i < |ls| ==> ls[i] == BlockLines(r)[i - 1];
    ReadLinesOfConcat(ls);
  }

  // ---------------------------------------------------------------------
  // add

  /** Appending a record with `add` after a `save` gives exactly the text a
      `save` of the longer list would, unless the list was empty: then the
      file starts with a blank line that `save` never writes. */
  lemma SaveThenAdd(rs: seq<Record>, r: Record)
    ensures SaveText(rs) + AddText(r) == SaveText(rs + [r]) <==> rs != []
  {
    AddTextIsBlankThenBlock(r);
    if rs != [] {
      SaveTextSnoc(rs, r);
    } else {
      assert rs + [r] == [r];
      assert BlockTexts([r]) == [BlockText(r)];
      assert |SaveText(rs) + AddText(r)| == |SaveText(rs + [r])| + 1;
    }
  }

  // ---------------------------------------------------------------------
  // edit

  function Min(a: int, b: int): int
  {
    if a < b then a else b
  }

  /** The lines `edit` writes when it rewrites the file's `lines` for record
      `index`: the five lines from `index * 5` give way to the new block; an
      index whose first line is not in the file changes nothing. */
  function Spliced(lines: seq<string>, index: int, r: Record): seq<string>
  {
    var k := index * 5;
    if 0 <= k < |lines| then lines[..k] + BlockLines(r) + lines[Min(k + 5, |lines|)..]
    else lines
  }

  /** Writing one more line of a stretch of lines. */
  lemma ConcatSliceSnoc(lines: seq<string>, a: nat, b: nat)
    requires a <= b < |lines|
    ensures Concat(lines[a..b + 1]) == Concat(lines[a..b]) + lines[b]
  {
    assert lines[a..b + 1] == lines[a..b] + [lines[b]];
    ConcatAppend(lines[a..b], [lines[b]]);
  }

  lemma ConcatPrefixSnoc(lines: seq<string>, b: nat)
    requires b < |lines|
    ensures Concat(lines[..b + 1]) == Concat(lines[..b]) + lines[b]
  {
    assert lines[..b + 1] == lines[..b] + [lines[b]];
    ConcatAppend(lines[..b], [lines[b]]);
  }

  /** The text of the spliced lines, piece by piece. */
  lemma SplicedText(lines: seq<string>, index: int, r: Record)
    ensures var k := index * 5;
            Concat(Spliced(lines, index, r)) ==
              if 0 <= k < |lines| then Concat(lines[..k]) + EditBlockText(r) + Concat(lines[Min(k + 5, |lines|)..])
              else Concat(lines)
  {
    var k := index * 5;
    if 0 <= k < |lines| {
      EditBlockIsBlockLines(r);
      ConcatAppend(lines[..k] + BlockLines(r), lines[Min(k + 5, |lines|)..]);
      ConcatAppend(lines[..k], BlockLines(r));
    }
  }

  /** What `edit` has written after its loop reached line `num`: the lines
      before it, with the record's span `k .. k + 5` replaced by `block` once
      the loop is past it. */
  ghost predicate EditProgress(lines: seq<string>, k: int, block: string, num: int, written: string)
  {
    && 0 <= num
    && (num <= |lines| || (0 <= k < |lines| && num == k + 5))
    && (!(0 <= k < num) ==> written == Concat(lines[..num]))
    && (0 <= k < num ==>
          k + 5 <= num && written == Concat(lines[..k]) + block + Concat(lines[Min(k + 5, |lines|)..Min(num, |lines|)]))
  }

  lemma EditProgressSkip(lines: seq<string>, k: int, block: string, num: int, written: string)
    requires EditProgress(lines, k, block, num, written)
    requires k % 5 == 0 && num < |lines| && k <= num < k + 5
    ensures EditProgress(lines, k, block, num + 5, written + block)
  {
    assert num == k;
    assert lines[Min(k + 5, |lines|)..Min(k + 5, |lines|)] == [];
  }

  lemma EditProgressCopy(lines: seq<string>, k: int, block: string, num: int, written: string)
    requires EditProgress(lines, k, block, num, written)
    requires num < |lines| && !(k <= num < k + 5)
    ensures EditProgress(lines, k, block, num + 1, written + lines[num])
  {
    if 0 <= k < num {
      ConcatSliceSnoc(lines, k + 5, num);
    } else {
      ConcatPrefixSnoc(lines, num);
    }
  }

  lemma EditProgressDone(lines: seq<string>, index: int, r: Record, num: int, written: string)
    requires EditProgress(lines, index * 5, EditBlockText(r), num, written)
    requires num >= |lines|
    ensures written == Concat(Spliced(lines, index, r))
  {
    var k := index * 5;
    SplicedText(lines, index, r);
    if 0 <= k < |lines| {
      assert 0 <= k < num && Min(num, |lines|) == |lines|;
      assert lines[Min(k + 5, |lines|)..|lines|] == lines[Min(k + 5, |lines|)..];
    } else {
      assert lines[..num] == lines;
    }
  }

  /** `edit`'s loop over the lines it read: a line inside the record's span
      `range(index * 5, index * 5 + 5)` writes the new block and skips five
      lines, any other line is copied. */
  method Edit(lines: seq<string>, index: int, r: Record) returns (written: string)
    ensures written == Concat(Spliced(lines, index, r))
  {
    var k := index * 5;
    var block := EditBlockText(r);
    written := "";
    var num := 0;
    assert lines[..0] == [];
    while num < |lines|
      invariant EditProgress(lines, k, block, num, written)
      decreases |lines| - num
    {
      if k <= num < k + 5 {
        EditProgressSkip(lines, k, block, num, written);
        written := written + block;
        num := num + 5;
      } else {
        EditProgressCopy(lines, k, block, num, written);
        written := written + lines[num];
        num := num + 1;
      }
    }
    EditProgressDone(lines, index, r, num, written);
  }

  /** `edit` keeps every line before the record's span and every line after it
      in place, and puts exactly one five-line block in the span; an index
      outside the file leaves the lines as they were. */
  lemma SplicedKeepsOtherLines(lines: seq<string>, index: int, r: Record)
    ensures var out := Spliced(lines, index, r);
            var k := index * 5;
            if 0 <= k < |lines| then
              && |out| == (if k + 5 <= |lines| then |lines| else k + 5)
              && (forall j :: 0 <= j < k ==> out[j] == lines[j])
              && out[k..k + 5] == BlockLines(r)
              && (forall j :: k + 5 <= j < |lines| ==> out[j] == lines[j])
            else out == lines
  {
  }

  /** Splicing at a block boundary replaces the block found there, or the
      shorter tail of the file. */
  lemma SplicedAtBlock(lines: seq<string>, pre: seq<string>, mid: seq<string>, post: seq<string>, i: nat, r: Record)
    requires lines == pre + mid + post
    requires |pre| == 5 * i && 0 < |mid| <= 5 && (|mid| < 5 ==> post == [])
    ensures Spliced(lines, i, r) == pre + BlockLines(r) + post
  {
    assert lines[..5 * i] == pre;
    assert Min(5 * i + 5, |lines|) == |pre| + |mid|;
    assert lines[|pre| + |mid|..] == post;
  }

  lemma AllBlockLinesAround(a: seq<Record>, x: Record, b: seq<Record>)
    ensures AllBlockLines(a + [x] + b) == AllBlockLines(a) + BlockLines(x) + AllBlockLines(b)
  {
    AllBlockLinesConcat(a + [x], b);
    AllBlockLinesConcat(a, [x]);
    AllBlockLinesSingle(x);
  }

  lemma Reassociate<T>(a: seq<T>, b: seq<T>, c: seq<T>, d: seq<T>)
    ensures a + b + c + d == a + b + (c + d)
  {
  }

  lemma SplitAt<T>(xs: seq<T>, i: nat, y: T)
    requires i < |xs| - 1
    ensures xs == xs[..i] + [xs[i]] + xs[i + 1..|xs| - 1] + [xs[|xs| - 1]]
    ensures xs[i := y] == xs[..i] + [y] + xs[i + 1..|xs| - 1] + [xs[|xs| - 1]]
  {
  }

  lemma SavedLinesUnfold(xs: seq<Record>)
    requires xs != []
    ensures SavedLines(xs) == AllBlockLines(xs[..|xs| - 1]) + FieldLines(xs[|xs| - 1])
  {
  }

  /** The saved lines of a list with record `x` somewhere before the last one. */
  lemma SavedLinesOfParts(ys: seq<Record>, a: seq<Record>, x: Record, b: seq<Record>, last: Record)
    requires ys == a + [x] + b + [last]
    ensures SavedLines(ys) == AllBlockLines(a) + BlockLines(x) + (AllBlockLines(b) + FieldLines(last))
  {
    assert ys[..|ys| - 1] == a + [x] + b;
    SavedLinesUnfold(ys);
    AllBlockLinesAround(a, x, b);
    Reassociate(AllBlockLines(a), BlockLines(x), AllBlockLines(b), FieldLines(last));
  }

  /** Records before the last one: the edited block keeps its separator line. */
  lemma EditSavedInner(rs: seq<Record>, i: nat, r: Record)
    requires i < |rs| - 1
    ensures Spliced(SavedLines(rs), i, r) == SavedLines(rs[i := r])
  {
    var n := |rs|;
    var a, b, last := rs[..i], rs[i + 1..n - 1], rs[n - 1];
    SplitAt(rs, i, r);
    SavedLinesOfParts(rs, a, rs[i], b, last);
    SavedLinesOfParts(rs[i := r], a, r, b, last);
    var post := AllBlockLines(b) + FieldLines(last);
    SplicedAtBlock(SavedLines(rs), AllBlockLines(a), BlockLines(rs[i]), post, i, r);
  }

  /** The last record: its block comes back with a separator line after it. */
  lemma EditSavedLast(rs: seq<Record>, r: Record)
    requires rs != []
    ensures Spliced(SavedLines(rs), |rs| - 1, r) == AllBlockLines(rs[|rs| - 1 := r])
  {
    var i := |rs| - 1;
    var pre := AllBlockLines(rs[..i]);
    assert SavedLines(rs) == pre + FieldLines(rs[i]) + [];
    SplicedAtBlock(SavedLines(rs), pre, FieldLines(rs[i]), [], i, r);
    assert rs[i := r] == rs[..i] + [r] + [];
    AllBlockLinesAround(rs[..i], r, []);
  }

  /** Editing record `i` of a saved file gives the saved lines of the edited
      list when `i` is not the last record; editing the last record also adds
      a blank line at the end, which `save` would not write. */
  lemma EditSaved(rs: seq<Record>, i: nat, r: Record)
    requires i < |rs|
    ensures Spliced(SavedLines(rs), i, r) ==
              if i < |rs| - 1 then SavedLines(rs[i := r]) else AllBlockLines(rs[i := r])
  {
    if i < |rs| - 1 {
      EditSavedInner(rs, i, r);
    } else {
      EditSavedLast(rs, r);
    }
  }

  /** The same, as text: the file `edit` writes over a saved file. */
  lemma EditSavedText(rs: seq<Record>, i: nat, r: Record)
    requires i < |rs|
    requires forall j :: 0 <= j < |rs| ==> LineSafe(rs[j])
    ensures Concat(Spliced(ReadLines(SaveText(rs)), i, r)) ==
              if i < |rs| - 1 then SaveText(rs[i := r]) else SaveText(rs[i := r]) + "\n"
  {
    ReadSaved(rs);
    EditSaved(rs, i, r);
    var rs' := rs[i := r];
    SaveTextIsSavedLines(rs');
    if i == |rs| - 1 {
      SavedLinesThenSeparator(rs');
      ConcatAppend(SavedLines(rs'), ["\n"]);
    }
  }
}
