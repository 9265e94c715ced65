/** `ConsoleUI` of main.py without its console: `load_data`, which parses the
    lines of the file into the ledger, and the checks `handle_input` makes
    before it adds or edits a record. */
module Console {
  import opened Wrappers
  import opened Text
  import opened Ledger
  import opened Storage

  /** What ends loading early: a field variable read before any line assigned
      it (Python's `NameError`), or an amount that `int` rejects (`ValueError`). */
  datatype LoadError = Unbound(variable: string) | BadAmount(text: string)

  /** The loop's four variables; `None` while a variable is still unbound. */
  datatype Fields = Fields(date: Option<string>, category: Option<string>,
                           amount: Option<int>, description: Option<string>)

  const Unassigned: Fields := Fields(None, None, None, None)

  /** The records appended to the ledger, and the error that stopped the
      loop, if one did. */
  datatype LoadOutcome = LoadOutcome(loaded: seq<Record>, failure: Option<LoadError>)

  /** A line of the file, by the first label of the `if`/`elif` chain that
      occurs in it, with the stripped text after that label. */
  datatype Row =
    | DateRow(value: string)
    | CategoryRow(value: string)
    | AmountRow(value: string)
    | DescriptionRow(value: string)
    | OtherRow

  function Classify(row: string): Row
  {
    if Find(row, DateLabel).Some? then DateRow(Strip(SplitSecond(row, DateLabel)))
    else if Find(row, CategoryLabel).Some? then CategoryRow(Strip(SplitSecond(row, CategoryLabel)))
    else if Find(row, AmountLabel).Some? then AmountRow(Strip(SplitSecond(row, AmountLabel)))
    else if Find(row, DescriptionLabel).Some? then DescriptionRow(Strip(SplitSecond(row, DescriptionLabel)))
    else OtherRow
  }

  /** `Record(date, category, amount, description)`: the arguments are
      evaluated in order, so the first unbound one is the error. */
  function MakeRecord(f: Fields): (r: Result<Record, LoadError>)
    ensures r.Success? <==> f.date.Some? && f.category.Some? && f.amount.Some? && f.description.Some?
    ensures r.Success? ==> r.value == Record(f.date.value, f.category.value, f.amount.value, f.description.value)
    ensures f.date.None? ==> r == Failure(Unbound("date"))
    ensures f.date.Some? && f.category.None? ==> r == Failure(Unbound("category"))
    ensures f.date.Some? && f.category.Some? && f.amount.None? ==> r == Failure(Unbound("amount"))
    ensures f.date.Some? && f.category.Some? && f.amount.Some? && f.description.None? ==>
              r == Failure(Unbound("description"))
  {
    if f.date.None? then Failure(Unbound("date"))
    else if f.category.None? then Failure(Unbound("category"))
    else if f.amount.None? then Failure(Unbound("amount"))
    else if f.description.None? then Failure(Unbound("description"))
    else Success(Record(f.date.value, f.category.value, f.amount.value, f.description.value))
  }

  /** The loop of `load_data` from a given state: a labelled line assigns its
      variable, any other line appends a record built from the variables as
      they stand (they are not reset), and one more record is appended after
      the last line. Records are appended, never removed. */
  function ParseRows(rows: seq<string>, f: Fields, acc: seq<Record>): (out: LoadOutcome)
    ensures acc <= out.loaded
    decreases |rows|
  {
    if rows == [] then
      match MakeRecord(f)
      case Failure(e) => LoadOutcome(acc, Some(e))
      case Success(r) => LoadOutcome(acc + [r], None)
    else
      match Classify(rows[0])
      case DateRow(v) => ParseRows(rows[1..], f.(date := Some(v)), acc)
      case CategoryRow(v) => ParseRows(rows[1..], f.(category := Some(v)), acc)
      case AmountRow(v) =>
        (match ParseInt(v)
         case None => LoadOutcome(acc, Some(BadAmount(v)))
         case Some(n) => ParseRows(rows[1..], f.(amount := Some(n)), acc))
      case DescriptionRow(v) => ParseRows(rows[1..], f.(description := Some(v)), acc)
      case OtherRow =>
        match MakeRecord(f)
        case Failure(e) => LoadOutcome(acc, Some(e))
        case Success(r) => ParseRows(rows[1..], f, acc + [r])
  }

  /** `load_data` given what `FileHandler.load` returned: `None` for a missing
      file; a missing or empty file loads nothing. */
  function Load(data: Option<seq<string>>): LoadOutcome
  {
    if data.None? || data.value == [] then LoadOutcome([], None)
    else ParseRows(data.value, Unassigned, [])
  }

  // ---------------------------------------------------------------------
  // Which lines the parser recognises

  /** A field value holding none of the four labels. */
  predicate Unlabelled(v: string)
  {
    && Find(v, DateLabel).None? && Find(v, CategoryLabel).None?
    && Find(v, AmountLabel).None? && Find(v, DescriptionLabel).None?
  }

  /** A record whose text fields each fit on one line and hold no label. */
  predicate Storable(r: Record)
  {
    LineSafe(r) && Unlabelled(r.date) && Unlabelled(r.category) && Unlabelled(r.description)
  }

  /** The record as loading gives it back: its text fields stripped. */
  function Normalize(r: Record): Record
  {
    r.(date := Strip(r.date), category := Strip(r.category), description := Strip(r.description))
  }

  function NormalizeAll(rs: seq<Record>): (ns: seq<Record>)
    ensures |ns| == |rs|
  {
    seq(|rs|, i requires 0 <= i < |rs| => Normalize(rs[i]))
  }

  lemma NormalizeAllCons(r: Record, rs: seq<Record>)
    ensures NormalizeAll([r] + rs) == [Normalize(r)] + NormalizeAll(rs)
  {
    var xs := [r] + rs;
    assert forall i :: 0 < i < |xs| ==> xs[i] == rs[i - 1];
  }

  lemma NormalizeAllSnoc(rs: seq<Record>, r: Record)
    ensures NormalizeAll(rs + [r]) == NormalizeAll(rs) + [Normalize(r)]
  {
    var xs := rs + [r];
    assert forall i :: 0 <= i < |rs| ==> xs[i] == rs[i];
  }

  /** Records whose text fields have no surrounding whitespace load back unchanged. */
  lemma NormalizeAllStripped(rs: seq<Record>)
    requires forall i :: 0 <= i < |rs| ==> Normalize(rs[i]) == rs[i]
    ensures NormalizeAll(rs) == rs
  {
  }

  /** The variables after reading the four field lines of `r`. */
  function Assigned(r: Record): Fields
  {
    Fields(Some(r.date), Some(r.category), Some(r.amount), Some(r.description))
  }

  /** No label starts with a character of a label checked after it, and no
      label holds a line end or starts with a digit or a minus sign. */
  lemma LabelFacts()
    ensures DateLabel[0] !in CategoryLabel && DateLabel[0] !in AmountLabel && DateLabel[0] !in DescriptionLabel
    ensures CategoryLabel[0] !in AmountLabel && CategoryLabel[0] !in DescriptionLabel
    ensures AmountLabel[0] !in DescriptionLabel
    ensures '\n' !in DateLabel && '\n' !in CategoryLabel && '\n' !in AmountLabel && '\n' !in DescriptionLabel
  {
  }

  /** A label whose first character is not in `prefix` is not found in a line
      made of `prefix`, a value without that label, and a line end. */
  lemma LabelAbsent(prefix: string, v: string, tag: string)
    requires tag != [] && tag[0] !in prefix && '\n' !in tag && Find(v, tag).None?
    ensures Find(prefix + v + "\n", tag).None?
  {
    FindNoneExtend(v, '\n', tag);
    assert prefix + v + "\n" == prefix + (v + "\n");
    FindSkipsPrefix(prefix, v + "\n", tag);
  }

  /** A line that starts with its label yields the text after it. */
  lemma LabelFirst(tag: string, v: string)
    requires tag != [] && '\n' !in tag && Find(v, tag).None?
    ensures Find(tag + v + "\n", tag) == Some(0)
    ensures SplitSecond(tag + v + "\n", tag) == v + "\n"
  {
    assert tag + v + "\n" == tag + (v + "\n");
    FindAtStart(tag + (v + "\n"), tag);
    assert (tag + (v + "\n"))[|tag|..] == v + "\n";
    FindNoneExtend(v, '\n', tag);
  }

  /** `str(n)` holds no label. */
  lemma DecimalHasNoLabel(n: int, tag: string)
    requires tag != [] && !IsDigit(tag[0]) && tag[0] != '-'
    ensures Find(IntToDecimal(n), tag).None?
  {
    DecimalChars(n);
    assert IntToDecimal(n) + [] == IntToDecimal(n);
    FindSkipsPrefix(IntToDecimal(n), [], tag);
  }

  lemma ClassifyDateLine(v: string)
    requires Find(v, DateLabel).None?
    ensures Classify(DateLabel + v + "\n") == DateRow(Strip(v))
  {
    LabelFacts();
    LabelFirst(DateLabel, v);
    StripLineEnd(v);
  }

  lemma ClassifyCategoryLine(v: string)
    requires Find(v, DateLabel).None? && Find(v, CategoryLabel).None?
    ensures Classify(CategoryLabel + v + "\n") == CategoryRow(Strip(v))
  {
    LabelFacts();
    LabelAbsent(CategoryLabel, v, DateLabel);
    LabelFirst(CategoryLabel, v);
    StripLineEnd(v);
  }

  lemma ClassifyAmountText(v: string)
    requires Find(v, DateLabel).None? && Find(v, CategoryLabel).None? && Find(v, AmountLabel).None?
    ensures Classify(AmountLabel + v + "\n") == AmountRow(Strip(v))
  {
    LabelFacts();
    LabelAbsent(AmountLabel, v, DateLabel);
    LabelAbsent(AmountLabel, v, CategoryLabel);
    LabelFirst(AmountLabel, v);
    StripLineEnd(v);
  }

  lemma ClassifyAmountLine(n: int)
    ensures Classify(AmountLabel + IntToDecimal(n) + "\n") == AmountRow(IntToDecimal(n))
    ensures ParseInt(IntToDecimal(n)) == Some(n)
  {
    LabelFacts();
    DecimalHasNoLabel(n, DateLabel);
    DecimalHasNoLabel(n, CategoryLabel);
    DecimalHasNoLabel(n, AmountLabel);
    ClassifyAmountText(IntToDecimal(n));
    DecimalStripped(n);
    ParseIntOfDecimal(n);
  }

  lemma ClassifyAsDescription(row: string, v: string)
    requires Find(row, DateLabel).None? && Find(row, CategoryLabel).None? && Find(row, AmountLabel).None?
    requires Find(row, DescriptionLabel).Some? && SplitSecond(row, DescriptionLabel) == v + "\n"
    ensures Classify(row) == DescriptionRow(Strip(v))
  {
    StripLineEnd(v);
  }

  lemma ClassifyDescriptionLine(v: string)
    requires Find(v, DateLabel).None? && Find(v, CategoryLabel).None? && Find(v, AmountLabel).None?
    requires Find(v, DescriptionLabel).None?
    ensures Classify(DescriptionLabel + v + "\n") == DescriptionRow(Strip(v))
  {
    LabelFacts();
    LabelAbsent(DescriptionLabel, v, DateLabel);
    LabelAbsent(DescriptionLabel, v, CategoryLabel);
    LabelAbsent(DescriptionLabel, v, AmountLabel);
    LabelFirst(DescriptionLabel, v);
    ClassifyAsDescription(DescriptionLabel + v + "\n", v);
  }

  /** A blank line is not a field line: it appends a record. */
  lemma ClassifyBlankLine()
    ensures Classify("\n") == OtherRow
  {
  }

  // ---------------------------------------------------------------------
  // Parsing what FileHandler wrote

  lemma ParseDateLine(v: string, rest: seq<string>, f: Fields, acc: seq<Record>)
    requires Find(v, DateLabel).None?
    ensures ParseRows([DateLabel + v + "\n"] + rest, f, acc) == ParseRows(rest, f.(date := Some(Strip(v))), acc)
  {
    ClassifyDateLine(v);
    var rows := [DateLabel + v + "\n"] + rest;
    NextRow(rows, 0, f, acc);
    assert rows[0..] == rows && rows[1..] == rest;
  }

  lemma ParseCategoryLine(v: string, rest: seq<string>, f: Fields, acc: seq<Record>)
    requires Find(v, DateLabel).None? && Find(v, CategoryLabel).None?
    ensures ParseRows([CategoryLabel + v + "\n"] + rest, f, acc) == ParseRows(rest, f.(category := Some(Strip(v))), acc)
  {
    ClassifyCategoryLine(v);
    var rows := [CategoryLabel + v + "\n"] + rest;
    NextRow(rows, 0, f, acc);
    assert rows[0..] == rows && rows[1..] == rest;
  }

  lemma ParseAmountLine(n: int, rest: seq<string>, f: Fields, acc: seq<Record>)
    ensures ParseRows([AmountLabel + IntToDecimal(n) + "\n"] + rest, f, acc) == ParseRows(rest, f.(amount := Some(n)), acc)
  {
    ClassifyAmountLine(n);
    var rows := [AmountLabel + IntToDecimal(n) + "\n"] + rest;
    NextRow(rows, 0, f, acc);
    assert rows[0..] == rows && rows[1..] == rest;
  }

  lemma ParseDescriptionLine(v: string, rest: seq<string>, f: Fields, acc: seq<Record>)
    requires Unlabelled(v)
    ensures ParseRows([DescriptionLabel + v + "\n"] + rest, f, acc) == ParseRows(rest, f.(description := Some(Strip(v))), acc)
  {
    ClassifyDescriptionLine(v);
    var rows := [DescriptionLabel + v + "\n"] + rest;
    NextRow(rows, 0, f, acc);
    assert rows[0..] == rows && rows[1..] == rest;
  }

  /** The four field lines of a storable record assign all four variables. */
  lemma ParseFieldLines(r: Record, rest: seq<string>, f: Fields, acc: seq<Record>)
    requires Storable(r)
    ensures ParseRows(FieldLines(r) + rest, f, acc) == ParseRows(rest, Assigned(Normalize(r)), acc)
  {
    var l0, l1, l2, l3 := DateLabel + r.date + "\n", CategoryLabel + r.category + "\n",
                          AmountLabel + IntToDecimal(r.amount) + "\n", DescriptionLabel + r.description + "\n";
    assert FieldLines(r) + rest == [l0] + ([l1] + ([l2] + ([l3] + rest)));
    var f1 := f.(date := Some(Strip(r.date)));
    var f2 := f1.(category := Some(Strip(r.category)));
    var f3 := f2.(amount := Some(r.amount));
    ParseDateLine(r.date, [l1] + ([l2] + ([l3] + rest)), f, acc);
    ParseCategoryLine(r.category, [l2] + ([l3] + rest), f1, acc);
    ParseAmountLine(r.amount, [l3] + rest, f2, acc);
    ParseDescriptionLine(r.description, rest, f3, acc);
    assert f3.(description := Some(Strip(r.description))) == Assigned(Normalize(r));
  }

  /** A blank line appends the record the variables describe. */
  lemma ParseBlankLine(r: Record, rest: seq<string>, acc: seq<Record>)
    ensures ParseRows(["\n"] + rest, Assigned(r), acc) == ParseRows(rest, Assigned(r), acc + [r])
  {
    ClassifyBlankLine();
    assert (["\n"] + rest)[1..] == rest;
  }

  lemma AppendAssoc<T>(a: seq<T>, b: seq<T>, c: seq<T>)
    ensures a + b + c == a + (b + c)
  {
  }

  /** A field block and its separator line append the record. */
  lemma ParseBlock(x: Record, rest: seq<string>, f: Fields, acc: seq<Record>)
    requires Storable(x)
    ensures ParseRows(BlockLines(x) + rest, f, acc) == ParseRows(rest, Assigned(Normalize(x)), acc + [Normalize(x)])
  {
    assert BlockLines(x) + rest == FieldLines(x) + (["\n"] + rest);
    ParseFieldLines(x, ["\n"] + rest, f, acc);
    ParseBlankLine(Normalize(x), rest, acc);
  }

  /** The variables after the blocks of `xs`, starting from `f`. */
  function FieldsAfter(xs: seq<Record>, f: Fields): Fields
  {
    if xs == [] then f else Assigned(Normalize(xs[|xs| - 1]))
  }

  lemma FieldsAfterCons(x: Record, ys: seq<Record>, f: Fields)
    ensures FieldsAfter([x] + ys, f) == FieldsAfter(ys, Assigned(Normalize(x)))
  {
    if ys != [] {
      assert ([x] + ys)[|ys|] == ys[|ys| - 1];
    }
  }

  /** One block more in front: its record comes first, then those of the rest. */
  lemma ParseBlocksCons(xs: seq<Record>, tail: seq<string>, f: Fields, acc: seq<Record>)
    requires xs != [] && Storable(xs[0])
    requires var f', acc' := Assigned(Normalize(xs[0])), acc + [Normalize(xs[0])];
             ParseRows(AllBlockLines(xs[1..]) + tail, f', acc') ==
               ParseRows(tail, FieldsAfter(xs[1..], f'), acc' + NormalizeAll(xs[1..]))
    ensures ParseRows(AllBlockLines(xs) + tail, f, acc) ==
              ParseRows(tail, FieldsAfter(xs, f), acc + NormalizeAll(xs))
  {
    var x, ys := xs[0], xs[1..];
    assert xs == [x] + ys;
    var rest := AllBlockLines(ys) + tail;
    AllBlockLinesConcat([x], ys);
    AllBlockLinesSingle(x);
    AppendAssoc(BlockLines(x), AllBlockLines(ys), tail);
    ParseBlock(x, rest, f, acc);
    NormalizeAllCons(x, ys);
    AppendAssoc(acc, [Normalize(x)], NormalizeAll(ys));
    FieldsAfterCons(x, ys, f);
  }

  lemma StorableTail(xs: seq<Record>)
    requires xs != [] && forall i :: 0 <= i < |xs| ==> Storable(xs[i])
    ensures Storable(xs[0]) && forall i :: 0 <= i < |xs[1..]| ==> Storable(xs[1..][i])
  {
    forall i | 0 <= i < |xs[1..]|
      ensures Storable(xs[1..][i])
    {
      assert xs[1..][i] == xs[i + 1];
    }
  }

  /** Whole blocks append their records, in order, and leave the variables
      describing the last of them. */
  lemma {:induction false} ParseBlocks(xs: seq<Record>, tail: seq<string>, f: Fields, acc: seq<Record>)
    requires forall i :: 0 <= i < |xs| ==> Storable(xs[i])
    ensures ParseRows(AllBlockLines(xs) + tail, f, acc) ==
              ParseRows(tail, FieldsAfter(xs, f), acc + NormalizeAll(xs))
  {
    if xs == [] {
      assert AllBlockLines(xs) + tail == tail;
      assert acc + NormalizeAll(xs) == acc;
    } else {
      StorableTail(xs);
      ParseBlocks(xs[1..], tail, Assigned(Normalize(xs[0])), acc + [Normalize(xs[0])]);
      ParseBlocksCons(xs, tail, f, acc);
    }
  }

  /** The four field lines of the last record, which has no separator line
      after it: the record is appended after the loop. */
  lemma ParseLastFieldLines(r: Record, f: Fields, acc: seq<Record>)
    requires Storable(r)
    ensures ParseRows(FieldLines(r), f, acc) == LoadOutcome(acc + [Normalize(r)], None)
  {
    assert FieldLines(r) == FieldLines(r) + [];
    ParseFieldLines(r, [], f, acc);
  }

  /** The blocks of all records but the last, then the last one's field lines. */
  lemma ParseBlocksThenLast(init: seq<Record>, last: Record)
    requires forall i :: 0 <= i < |init| ==> Storable(init[i])
    requires Storable(last)
    ensures ParseRows(AllBlockLines(init) + FieldLines(last), Unassigned, []) ==
              LoadOutcome(NormalizeAll(init + [last]), None)
  {
    var acc := [] + NormalizeAll(init);
    ParseBlocks(init, FieldLines(last), Unassigned, []);
    ParseLastFieldLines(last, FieldsAfter(init, Unassigned), acc);
    assert acc == NormalizeAll(init);
    NormalizeAllSnoc(init, last);
  }

  /** The lines of a saved file, parsed from the start. */
  lemma ParseSavedLines(rs: seq<Record>)
    requires rs != [] && forall i :: 0 <= i < |rs| ==> Storable(rs[i])
    ensures ParseRows(SavedLines(rs), Unassigned, []) == LoadOutcome(NormalizeAll(rs), None)
  {
    var init, last := rs[..|rs| - 1], rs[|rs| - 1];
    assert rs == init + [last];
    ParseBlocksThenLast(init, last);
  }

  lemma ReadEmptySave()
    ensures ReadLines(SaveText([])) == []
  {
    assert BlockTexts([]) == [];
  }

  /** Loading a saved file gives back the saved records with their text
      fields stripped; nothing is lost, duplicated or reordered. */
  lemma LoadSaved(rs: seq<Record>)
    requires forall i :: 0 <= i < |rs| ==> Storable(rs[i])
    ensures Load(Some(ReadLines(SaveText(rs)))) == LoadOutcome(NormalizeAll(rs), None)
  {
    if rs == [] {
      ReadEmptySave();
    } else {
      ReadSaved(rs);
      ParseSavedLines(rs);
    }
  }

  /** Save followed by load is the identity on records whose text fields are
      single-line, label-free and without surrounding whitespace. */
  lemma SaveLoadRoundTrip(rs: seq<Record>)
    requires forall i :: 0 <= i < |rs| ==> Storable(rs[i]) && Normalize(rs[i]) == rs[i]
    ensures Load(Some(ReadLines(SaveText(rs)))).loaded == rs
    ensures Load(Some(ReadLines(SaveText(rs)))).failure == None
  {
    LoadSaved(rs);
    NormalizeAllStripped(rs);
  }

  /** After `save` of a non-empty list and `add` of one record, loading gives
      the longer list. */
  lemma LoadAfterAdd(rs: seq<Record>, r: Record)
    requires rs != [] && forall i :: 0 <= i < |rs| ==> Storable(rs[i])
    requires Storable(r)
    ensures Load(Some(ReadLines(SaveText(rs) + AddText(r)))) == LoadOutcome(NormalizeAll(rs + [r]), None)
  {
    SaveThenAdd(rs, r);
    var xs := rs + [r];
    assert forall i :: 0 <= i < |xs| ==> Storable(xs[i]) by {
      assert forall i :: 0 <= i < |rs| ==> xs[i] == rs[i];
    }
    LoadSaved(xs);
  }

  /** `add` into an empty or missing file writes a blank line first, so the
      next load stops at that line: the record variables are still unbound. */
  lemma LoadAfterAddToEmptyFile(r: Record)
    requires LineSafe(r)
    ensures Load(Some(ReadLines(SaveText([]) + AddText(r)))) == LoadOutcome([], Some(Unbound("date")))
  {
    ReadEmptySave();
    assert SaveText([]) + AddText(r) == AddText(r);
    ReadAddText(r);
    var ls := ["\n"] + FieldLines(r);
    ClassifyBlankLine();
    assert ls[0] == "\n";
  }

  /** After `edit` of record `i` in a saved file, loading gives the edited
      list; when `i` is the last record, the block `edit` writes ends with a
      blank line that `save` did not write, and that record loads twice. */
  lemma LoadAfterEdit(rs: seq<Record>, i: nat, r: Record)
    requires i < |rs| && forall j :: 0 <= j < |rs| ==> Storable(rs[j])
    requires Storable(r)
    ensures Load(Some(ReadLines(Concat(Spliced(ReadLines(SaveText(rs)), i, r))))) ==
              LoadOutcome(NormalizeAll(rs[i := r]) + (if i == |rs| - 1 then [Normalize(r)] else []), None)
  {
    var xs := rs[i := r];
    assert forall j :: 0 <= j < |xs| ==> Storable(xs[j]);
    assert forall j :: 0 <= j < |rs| ==> LineSafe(rs[j]);
    EditSavedText(rs, i, r);
    if i < |rs| - 1 {
      LoadSaved(xs);
      assert NormalizeAll(xs) + [] == NormalizeAll(xs);
    } else {
      ReadSavedThenSeparator(xs);
      LoadEditedLast(xs);
    }
  }

  /** After the last line the record the variables describe is appended. */
  lemma ParseEnd(r: Record, acc: seq<Record>)
    ensures ParseRows([], Assigned(r), acc) == LoadOutcome(acc + [r], None)
  {
  }

  /** Whole blocks, each with its separator line, parsed from the start. */
  lemma ParseAllBlocks(xs: seq<Record>)
    requires xs != [] && forall j :: 0 <= j < |xs| ==> Storable(xs[j])
    ensures ParseRows(AllBlockLines(xs), Unassigned, []) ==
              LoadOutcome(NormalizeAll(xs) + [Normalize(xs[|xs| - 1])], None)
  {
    ParseBlocksToEnd(xs);
    var acc := [] + NormalizeAll(xs);
    assert acc == NormalizeAll(xs);
    var last := Normalize(xs[|xs| - 1]);
    assert FieldsAfter(xs, Unassigned) == Assigned(last);
    ParseEnd(last, acc);
  }

  lemma ParseBlocksToEnd(xs: seq<Record>)
    requires forall j :: 0 <= j < |xs| ==> Storable(xs[j])
    ensures ParseRows(AllBlockLines(xs), Unassigned, []) ==
              ParseRows([], FieldsAfter(xs, Unassigned), [] + NormalizeAll(xs))
  {
    var lines := AllBlockLines(xs);
    assert lines + [] == lines;
    ParseBlocks(xs, [], Unassigned, []);
  }

  /** A file of whole blocks, each with its separator line, loads every
      record and then the last one once more. */
  lemma LoadEditedLast(xs: seq<Record>)
    requires xs != [] && forall j :: 0 <= j < |xs| ==> Storable(xs[j])
    ensures Load(Some(AllBlockLines(xs))) == LoadOutcome(NormalizeAll(xs) + [Normalize(xs[|xs| - 1])], None)
  {
    assert |AllBlockLines(xs)| > 0;
    ParseAllBlocks(xs);
  }

  // ---------------------------------------------------------------------
  // The checks `handle_input` makes before it adds or edits a record

  /** Why `handle_input` refuses an add or an edit. */
  datatype InputError = NoSuchRecord | BadCategory | NonPositiveAmount

  /** The category is checked before the amount. */
  function CheckRecord(category: string, amount: int): (r: Option<InputError>)
    ensures r.None? <==> (category == Income || category == Expense) && amount > 0
    ensures r == Some(BadCategory) <==> category != Income && category != Expense
    ensures r == Some(NonPositiveAmount) <==> (category == Income || category == Expense) && amount <= 0
  {
    if category != Income && category != Expense then Some(BadCategory)
    else if amount <= 0 then Some(NonPositiveAmount)
    else None
  }

  /** An edit checks the index against the ledger's length before anything else. */
  function CheckEdit(index: int, count: nat, category: string, amount: int): (r: Option<InputError>)
    ensures r.None? <==> 0 <= index < count && CheckRecord(category, amount).None?
    ensures r == Some(NoSuchRecord) <==> index < 0 || index >= count
    ensures 0 <= index < count ==> r == CheckRecord(category, amount)
  {
    if index < 0 || index >= count then Some(NoSuchRecord)
    else CheckRecord(category, amount)
  }

  /** A record `handle_input` would accept. */
  predicate Accepted(r: Record)
  {
    CheckRecord(r.category, r.amount).None?
  }

  /** An accepted record adds its amount to exactly one of the two sums. */
  lemma AcceptedCountsOnce(rs: seq<Record>, r: Record)
    requires Accepted(r)
    ensures CategorySum(rs + [r], Income) + CategorySum(rs + [r], Expense) ==
              CategorySum(rs, Income) + CategorySum(rs, Expense) + r.amount
    ensures CategorySum(rs + [r], Income) >= CategorySum(rs, Income)
    ensures CategorySum(rs + [r], Expense) >= CategorySum(rs, Expense)
    ensures r.category == Income ==>
              CategorySum(rs + [r], Income) == CategorySum(rs, Income) + r.amount &&
              CategorySum(rs + [r], Expense) == CategorySum(rs, Expense)
    ensures r.category == Expense ==>
              CategorySum(rs + [r], Expense) == CategorySum(rs, Expense) + r.amount &&
              CategorySum(rs + [r], Income) == CategorySum(rs, Income)
  {
    CategorySumAppend(rs, r, Income);
    CategorySumAppend(rs, r, Expense);
  }

  /** A ledger built only through `handle_input` has no record outside the
      two sums, and neither sum is negative. */
  lemma {:induction false} AcceptedLedgerBalance(rs: seq<Record>)
    requires forall i :: 0 <= i < |rs| ==> Accepted(rs[i])
    ensures CategorySum(rs, Income) + CategorySum(rs, Expense) == Total(rs)
    ensures CategorySum(rs, Income) >= 0 && CategorySum(rs, Expense) >= 0
  {
    if rs != [] {
      AcceptedLedgerBalance(rs[1..]);
    }
  }

  /** An index that passes the check falls inside the saved file, so the
      splice of `FileHandler.edit` replaces a block there. */
  lemma AcceptedEditHitsFile(rs: seq<Record>, index: int, category: string, amount: int)
    requires CheckEdit(index, |rs|, category, amount).None?
    ensures 0 <= 5 * index < |SavedLines(rs)|
  {
  }

  // ---------------------------------------------------------------------
  // ConsoleUI

  /** One step of the loop of `load_data`, at line `i`, branch by branch. */
  lemma NextRow(rows: seq<string>, i: nat, f: Fields, acc: seq<Record>)
    requires i < |rows|
    ensures Classify(rows[i]).DateRow? ==>
      ParseRows(rows[i..], f, acc) == ParseRows(rows[i + 1..], f.(date := Some(Classify(rows[i]).value)), acc)
    ensures Classify(rows[i]).CategoryRow? ==>
      ParseRows(rows[i..], f, acc) == ParseRows(rows[i + 1..], f.(category := Some(Classify(rows[i]).value)), acc)
    ensures Classify(rows[i]).AmountRow? && ParseInt(Classify(rows[i]).value).None? ==>
      ParseRows(rows[i..], f, acc) == LoadOutcome(acc, Some(BadAmount(Classify(rows[i]).value)))
    ensures Classify(rows[i]).AmountRow? && ParseInt(Classify(rows[i]).value).Some? ==>
      ParseRows(rows[i..], f, acc) ==
        ParseRows(rows[i + 1..], f.(amount := Some(ParseInt(Classify(rows[i]).value).value)), acc)
    ensures Classify(rows[i]).DescriptionRow? ==>
      ParseRows(rows[i..], f, acc) == ParseRows(rows[i + 1..], f.(description := Some(Classify(rows[i]).value)), acc)
    ensures Classify(rows[i]).OtherRow? && MakeRecord(f).Failure? ==>
      ParseRows(rows[i..], f, acc) == LoadOutcome(acc, Some(MakeRecord(f).error))
    ensures Classify(rows[i]).OtherRow? && MakeRecord(f).Success? ==>
      ParseRows(rows[i..], f, acc) == ParseRows(rows[i + 1..], f, acc + [MakeRecord(f).value])
  {
    assert rows[i..][0] == rows[i] && rows[i..][1..] == rows[i + 1..];
  }

  class ConsoleUI {
    const financeManager: FinanceManager

    constructor (financeManager: FinanceManager)
      ensures this.financeManager == financeManager
    {
      this.financeManager := financeManager;
    }

    /** `load_data`: the records of the file's lines are appended to the
        ledger one by one; an error stops the loop and leaves the records
        appended before it. */
    method LoadData(data: Option<seq<string>>) returns (failure: Option<LoadError>)
      modifies financeManager
      ensures financeManager.records == old(financeManager.records) + Load(data).loaded
      ensures failure == Load(data).failure
    {
      failure := None;
      if data.None? || data.value == [] {
        return;
      }
      var rows := data.value;
      var date: Option<string>, category: Option<string> := None, None;
      var amount: Option<int>, description: Option<string> := None, None;
      ghost var acc: seq<Record> := [];
      var i := 0;
      while i < |rows|
        invariant 0 <= i <= |rows|
        invariant financeManager.records == old(financeManager.records) + acc
        invariant Load(data) == ParseRows(rows[i..], Fields(date, category, amount, description), acc)
      {
        var row := rows[i];
        ghost var f := Fields(date, category, amount, description);
        NextRow(rows, i, f, acc);
        if Find(row, DateLabel).Some? {
          date := Some(Strip(SplitSecond(row, DateLabel)));
          assert Classify(row) == DateRow(date.value);
        } else if Find(row, CategoryLabel).Some? {
          category := Some(Strip(SplitSecond(row, CategoryLabel)));
          assert Classify(row) == CategoryRow(category.value);
        } else if Find(row, AmountLabel).Some? {
          var text := Strip(SplitSecond(row, AmountLabel));
          assert Classify(row) == AmountRow(text);
          var n := ParseInt(text);
          if n.None? {
            failure := Some(BadAmount(text));
            return;
          }
          amount := Some(n.value);
        } else if Find(row, DescriptionLabel).Some? {
          description := Some(Strip(SplitSecond(row, DescriptionLabel)));
          assert Classify(row) == DescriptionRow(description.value);
        } else {
          assert Classify(row) == OtherRow;
          var made := MakeRecord(Fields(date, category, amount, description));
          if made.Failure? {
            failure := Some(made.error);
            return;
          }
          financeManager.AddRecord(made.value);
          acc := acc + [made.value];
        }
        i := i + 1;
      }
      assert rows[i..] == [];
      var made := MakeRecord(Fields(date, category, amount, description));
      if made.Failure? {
        failure := Some(made.error);
        return;
      }
      financeManager.AddRecord(made.value);
    }

    /** Menu choice 2 once its inputs are read: a checked record goes into
        the ledger, and the text `FileHandler.add` appends to the file is
        returned; a refused one changes nothing. */
    method HandleAdd(date: string, category: string, amount: int, description: string)
      returns (outcome: Option<InputError>, appended: string)
      modifies financeManager
      ensures outcome == CheckRecord(category, amount)
      ensures outcome.None? ==>
        var r := Record(date, category, amount, description);
        financeManager.records == old(financeManager.records) + [r] && appended == AddText(r)
      ensures outcome.Some? ==> financeManager.records == old(financeManager.records) && appended == ""
    {
      appended := "";
      outcome := CheckRecord(category, amount);
      if outcome.None? {
        var r := Record(date, category, amount, description);
        financeManager.AddRecord(r);
        appended := AddText(r);
      }
    }

    /** Menu choice 3 once its inputs are read, with the lines of the file
        as `FileHandler.edit` reads them: a checked edit replaces the record
        in the ledger and gives the file's new text; a refused one changes
        nothing. */
    method HandleEdit(index: int, date: string, category: string, amount: int, description: string,
                      lines: seq<string>)
      returns (outcome: Option<InputError>, written: Option<string>)
      modifies financeManager
      ensures outcome == CheckEdit(index, |old(financeManager.records)|, category, amount)
      ensures outcome.None? ==>
        var r := Record(date, category, amount, description);
        financeManager.records == old(financeManager.records)[index := r] &&
        written == Some(Concat(Spliced(lines, index, r)))
      ensures outcome.Some? ==> financeManager.records == old(financeManager.records) && written == None
    {
      written := None;
      outcome := CheckEdit(index, |financeManager.records|, category, amount);
      if outcome.None? {
        var r := Record(date, category, amount, description);
        financeManager.EditRecord(index, r);
        var text := Edit(lines, index, r);
        written := Some(text);
      }
    }
  }
}
