# my_wallet ledger, modelled in Dafny

`my_wallet` is a console program for personal income and expense records.
A `FinanceManager` owns an ordered list of `Record`s (date, category,
amount, description). It reports the balance and searches by date,
category or amount. A `FileHandler` keeps the list in a text file, one block
of four labelled lines (`Дата: `, `Категория: `, `Сумма: `, `Описание: `)
per record. The file is rewritten in full on exit (`save`), appended to
when a record is added (`add`), and rewritten line by line when a record is
edited (`edit`). At start-up `ConsoleUI.load_data` parses the file back
into the ledger. `handle_input` checks the category and the amount (and,
for an edit, the index) before it changes the ledger and the file.

The model follows main.py class by class:

- `wrappers.dfy` (`Wrappers`): `Option` and `Result`.
- `text.dfy` (`Text`): the Python string built-ins the program relies on,
  as functions over `seq<char>`:
  - `sep in row` and `row.split(sep)[1]` (`Find`, `SplitSecond`);
  - `str.strip()` (`Strip`);
  - `file.readlines()` in text mode, with universal newlines (`ReadLines`);
  - `'\n'.join` (`Join`);
  - `str(int)` (`IntToDecimal`) and `int(str)` (`ParseInt`);
  - `Concat`, the text of successive `write` calls.
- `ledger.dfy` (`Ledger`):
  - the `Record` datatype;
  - the `FinanceManager` class, whose `records` field the methods reassign;
  - the balance sums and the search filter as specification functions;
  - the unit tests of `test_my_wallet.py`, replayed on the class.
- `storage.dfy` (`Storage`):
  - the text `save` and `add` write, as functions;
  - `edit`'s `while` loop, as a method over the lines it read back (`Edit`);
  - the line view of the same files, and what reading them back gives.
- `console.dfy` (`Console`):
  - the `load_data` loop, as a method of a `ConsoleUI` class (`LoadData`), specified by the function `Load`;
  - the input checks of `handle_input`;
  - the add and edit paths with their inputs given as parameters (`HandleAdd`, `HandleEdit`);
  - the round trips between the file and the ledger.

Specification functions, which the contracts below are stated in:

| function | source |
|---|---|
| `Ledger.CategorySum` | main.py:33-40 |
| `Ledger.Matches` / `Ledger.Search` | main.py:49-57 |
| `Storage.SaveText` | main.py:66-80 |
| `Storage.AddText` | main.py:89-102 |
| `Storage.EditBlockText` | main.py:113-121 |
| `Storage.Spliced` | main.py:109-125 |
| `Console.Classify` | main.py:159-166 |
| `Console.ParseRows` / `Console.Load` | main.py:156-173 |
| `Console.CheckRecord` / `Console.CheckEdit` | main.py:196-226 |

What the proofs establish about the file format, including where it fails:

- `save` followed by `load` gives back every record, in order.
  - This holds for records whose text fields fit on one line and contain no label.
  - Loading strips each text field.
- After `save`, an `add` gives the file a later `save` of the longer list would write.
  - This holds only when the list was not empty.
  - An `add` into an empty or missing file writes a blank line first. The next `load_data` then stops with Python's `NameError` on `date`.
- An `edit` over a saved file rewrites exactly the five-line span of the chosen record.
  - The block `edit` writes always ends with a blank line.
  - Editing the last record therefore leaves a file whose last record loads twice.
- The balance is what searches by category add up to. In a ledger built only through the input checks, the two sums together are the total of all amounts, and neither is negative.

Three properties of the code that shape the model:

- **Categories.** Categories are free strings compared by equality, so `Record.category` is a `string`, and a record of any other category counts towards neither sum.
- **Last block.** `save` writes no blank line after the last block.
- **Load.** `load_data` emits a record at every unlabelled line and once more after the last line. `Console.ParseRows` models it that way.

## Model

| member | source | states |
|---|---|---|
| Ledger.FinanceManager.constructor | main.py:19-20 | a new manager holds no records |
| Ledger.FinanceManager.AddRecord | main.py:22-24 | the record list becomes the old list with `r` appended at the end |
| Ledger.FinanceManager.EditRecord | main.py:26-28 | the record at `index` is replaced by `r`; every other record and the length are unchanged |
| Ledger.FinanceManager.GetBalance | main.py:30-42 | income is the total amount of the records a search by category `Доход` returns, expense the same for `Расход`, and the third value is income minus expense |
| Ledger.FinanceManager.SearchRecords | main.py:44-57 | the loop returns exactly `Search` of the stored records: the matching records in stored order |
| Ledger.Search | main.py:49-57 | the result is no longer than the ledger, and every record in it is a stored record that satisfies all three criteria |
| Ledger.SearchComplete | main.py:50-56 | every stored record that satisfies the criteria is in the result |
| Ledger.SearchConcat | main.py:50-56 | searching two stretches and joining the results is searching their concatenation, so stored order is kept |
| Ledger.SearchAllEmpty | main.py:45-57 | with all three criteria empty the whole ledger is returned |
| Ledger.AmountCriterionExact | main.py:54 | the amount criterion `str(n)` selects a record if and only if its amount is `n` |
| Ledger.CategorySumAppend | main.py:22-40 | appending a record changes a category's sum by that record's amount if it has that category, and by nothing otherwise |
| Ledger.CategorySumUpdate | main.py:26-40 | replacing record `i` removes the old record's contribution to a sum and adds the new one's |
| Ledger.CategorySumIsSearchTotal | main.py:33-57 | a category's sum equals the total amount of the records a search by that category returns |
| Ledger.SumsPartitionTotal | main.py:33-41 | the income sum, the expense sum and the amounts of records of any other category add up to the total of all amounts |
| Ledger.OtherCategoryIgnored | main.py:33-40 | a record of any other category changes neither sum |
| Ledger.OtherCategories | main.py:33-40 | the records it keeps are neither income nor expense |
| Ledger.TestLedgerSearches | test_my_wallet.py:29-36 | on the test ledger: one income record, two records dated 2024-04-10, none for the amount text `150000` |
| Ledger.SetUp | test_my_wallet.py:7-12 | a fresh manager holding the two test records in order |
| Ledger.TestBalance | test_my_wallet.py:14-17 | the balance of the test ledger is (50000, 15000, 35000) |
| Ledger.TestAddRecord | test_my_wallet.py:19-22 | after adding a 30000 income record the income is 80000 |
| Ledger.TestEditRecord | test_my_wallet.py:24-27 | after replacing record 0 by an 80000 income record the income is 80000 |
| Ledger.TestSearchRecords | test_my_wallet.py:29-36 | the three searches of the test return 1, 2 and 0 records |
| Text.Find | main.py:159 | `Some(j)`: the label occurs at `j` and nowhere before; `None`: it occurs nowhere |
| Text.SplitSecond | main.py:160 | the result is the text right after the first occurrence of the separator, up to its next occurrence or the end of the row: no occurrence of the separator starts inside it, and the separator or the end of the row follows it |
| Text.UpToSeparator | main.py:160 | the piece that `split` ends at the first separator: a prefix of its input at no position of which the separator starts, followed either by the end of the input or by the separator itself |
| Text.TrimLeft | main.py:160 | the result is a suffix of the input, does not start with whitespace, and everything dropped is whitespace |
| Text.TrimRight | main.py:160 | the result is a prefix of the input, does not end with whitespace, and everything dropped is whitespace |
| Text.StripLineEnd | main.py:160 | a line end makes no difference to `strip()` |
| Text.TranslateNewlines | main.py:85-86 | text read in text mode contains no `\r` |
| Text.SplitLines | main.py:86 | the lines concatenate to the text; each is non-empty and every line but the last ends in `\n` |
| Text.ReadLinesOfConcat | main.py:85-86 | text written as terminated lines without `\r` reads back as exactly those lines |
| Text.JoinSnoc | main.py:69-79 | joining one more part appends the separator and that part |
| Text.JoinThenEmpty | main.py:69-79 | joining with a trailing empty part puts the separator after every part |
| Text.ParseIntOfDecimal | main.py:164 | `int(str(n)) == n` for every integer `n`, negative ones included |
| Text.DecimalInjective | main.py:54 | `str` is injective on integers |
| Text.DecimalStripped | main.py:164 | `str(n)` has no surrounding whitespace for `strip()` to remove |
| Storage.BlockTextIsFieldLines | main.py:69-79 | the block `save` writes per record is its four field lines, each ending in `\n` |
| Storage.SaveTextSnoc | main.py:66-80 | `save` of one more record writes the old text, `\n` and that record's block |
| Storage.SaveTextIsSavedLines | main.py:66-80 | the saved text is the lines of all blocks, every block but the last followed by a blank line |
| Storage.ReadSaved | main.py:82-87 | reading a saved file back gives those lines |
| Storage.ReadSavedThenSeparator | main.py:82-87 | a saved file with one more line end reads back as every block with its blank line |
| Storage.AddTextIsBlankThenBlock | main.py:89-102 | `add` writes a blank line and then the block `save` writes for the record |
| Storage.SaveThenAdd | main.py:89-102 | `save(rs)` followed by `add(r)` is the text of `save(rs + [r])` if and only if `rs` is not empty |
| Storage.ReadAddText | main.py:89-102 | what `add` writes reads back as a blank line and then the record's four field lines |
| Storage.EditBlockIsBlockLines | main.py:113-121 | the block `edit` writes is the `save` block and a blank line: five lines |
| Storage.Edit | main.py:104-125 | the loop writes exactly the read lines with the span `index*5 .. index*5+5` replaced by the new block, and the lines unchanged when the span starts outside the file |
| Storage.SplicedKeepsOtherLines | main.py:109-125 | every line before the span and after it keeps its place; the span holds exactly the new block; an index outside the file changes nothing |
| Storage.EditSaved | main.py:104-125 | over a saved file, `edit` of record `i` gives the saved lines of the edited list, and for the last record the same with a trailing blank line |
| Storage.EditSavedText | main.py:104-125 | the same as text: `save` of the edited list, plus one `\n` when the last record was edited |
| Console.MakeRecord | main.py:168-172 | a record is built if and only if all four variables are bound, and then from their values; otherwise the error names the first unbound one in argument order (date, category, amount, description) |
| Console.ParseRows | main.py:157-173 | records are only ever appended: the records loaded before a line stay a prefix of the outcome |
| Console.NextRow | main.py:158-170 | one step of the loop: the first label found assigns its variable, a bad amount or an unbound variable stops the loop, an unlabelled line appends the record |
| Console.ConsoleUI.LoadData | main.py:154-173 | the ledger becomes the old list followed by the records `Load` gives for the file's lines, and the error returned is `Load`'s |
| Console.ConsoleUI.constructor | main.py:130-134 | the console holds the given manager |
| Console.LoadSaved | main.py:154-173 | loading a saved file of single-line, label-free records gives every record, in order, with its text fields stripped, and no error |
| Console.SaveLoadRoundTrip | main.py:154-173 | for such records without surrounding whitespace, load after save is the identity |
| Console.ParseBlocks | main.py:157-170 | whole blocks followed by any lines append their records in order and leave the variables holding the last record |
| Console.LoadAfterAdd | main.py:89-102 | after `save` of a non-empty list and `add` of a record, loading gives the longer list |
| Console.LoadAfterAddToEmptyFile | main.py:89-102 | after `add` into an empty file, loading stops at the first line with `date` unbound and loads nothing |
| Console.LoadAfterEdit | main.py:104-125 | after `edit` of record `i` of a saved file, loading gives the edited list, with the edited record loaded twice when it is the last one |
| Console.LoadEditedLast | main.py:154-173 | a file of whole blocks, each with its blank line, loads every record and then the last one again |
| Console.CheckRecord | main.py:196-200 | refuses exactly when the category is neither `Доход` nor `Расход` (checked first) or the amount is not positive |
| Console.CheckEdit | main.py:213-226 | refuses an index outside the ledger before anything else, and otherwise checks as an add |
| Console.AcceptedCountsOnce | main.py:196-203 | an accepted record raises exactly one of the two sums, by its amount |
| Console.AcceptedLedgerBalance | main.py:196-200 | in a ledger of accepted records the two sums add up to the total, and neither is negative |
| Console.AcceptedEditHitsFile | main.py:213-215 | an index that passes the check starts a span inside the saved file |
| Console.ConsoleUI.HandleAdd | main.py:187-205 | a checked record is appended to the ledger and `add`'s text is returned; a refused one leaves the ledger unchanged and writes nothing |
| Console.ConsoleUI.HandleEdit | main.py:210-233 | a checked edit replaces the record in the ledger and returns the text `edit` writes; a refused one leaves the ledger unchanged and writes nothing |

## Left out

- Console input and output are not modelled: `clear_screen`, `show_menu`, every `print` and `input`, the menu loop of `my_wallet`, and `exit`. Menu choices 1 and 4 are `GetBalance` and `SearchRecords`; choice 5 is `SaveText`.
- Real file I/O is not modelled. The file's text and lines are parameters and results. `os.path.exists` becomes the `None` case of `Load`'s argument. A `FileNotFoundError` in `edit` is not modelled.
- Newline translation on write (`\n` to `\r\n` on Windows) is not modelled; on read, `\r\n` and `\r` translation is modelled.
- Console.ConsoleUI.HandleAdd: the date, category and amount are taken as already converted. `datetime.date.fromisoformat`, `str.capitalize()` and `int()` of the input are not modelled, nor are their errors.
- Console.ConsoleUI.HandleEdit: as for HandleAdd, and the index is taken as an integer.
- Ledger.FinanceManager.EditRecord: requires `0 <= index < len(records)`. Python's negative indexing and `IndexError` are not modelled, because the only caller checks this range first (main.py:214).
- Text.ParseInt: accepts only an optional sign and ASCII digits after stripping. Underscores and non-ASCII digits, which Python's `int` also accepts, are reported as a bad amount. Amounts the program writes itself come from `str(int)`, so they are unaffected.
- Console.LoadSaved: the round trip is stated only for records whose text fields fit on one line and contain none of the four labels. Other values break the line format, and what loading makes of them is not characterised.
- The search criteria are strings. `search_records`' `Optional` defaults are the empty string, and no caller passes `None`.
