/** The in-memory ledger of main.py: the `Record` value and the
    `FinanceManager` object that owns the ordered list of records, with its
    balance and search queries. */
module Ledger {
  import opened Text

  /** The two category labels `handle_input` accepts: income and expense. */
  const Income: string := "Доход"
  const Expense: string := "Расход"

  /** One ledger entry. Every field is stored as given; nothing is validated
      here (`ConsoleUI.handle_input` validates before constructing). */
  datatype Record = Record(date: string, category: string, amount: int, description: string)

  /** The triple returned by `get_balance`. */
  datatype Balance = Balance(income: int, expense: int, net: int)

  // ---------------------------------------------------------------------
  // Sums

  /** What record `r` adds to the sum for category `c`. */
  function Contribution(r: Record, c: string): int
  {
    if r.category == c then r.amount else 0
  }

  /** `sum(record.amount for record in records if record.category == c)` */
  function CategorySum(rs: seq<Record>, c: string): int
  {
    if rs == [] then 0 else Contribution(rs[0], c) + CategorySum(rs[1..], c)
  }

  /** Sum of every amount, whatever the category. */
  function Total(rs: seq<Record>): int
  {
    if rs == [] then 0 else rs[0].amount + Total(rs[1..])
  }

  /** Appending a record changes a category's sum by that record's contribution only. */
  lemma {:induction false} CategorySumAppend(rs: seq<Record>, r: Record, c: string)
    ensures CategorySum(rs + [r], c) == CategorySum(rs, c) + Contribution(r, c)
  {
    if rs != [] {
      assert (rs + [r])[1..] == rs[1..] + [r];
      CategorySumAppend(rs[1..], r, c);
    }
  }

  /** Replacing the record at `i` removes its old contribution and adds the new one. */
  lemma {:induction false} CategorySumUpdate(rs: seq<Record>, i: nat, r: Record, c: string)
    requires i < |rs|
    ensures CategorySum(rs[i := r], c) == CategorySum(rs, c) - Contribution(rs[i], c) + Contribution(r, c)
  {
    if i > 0 {
      assert rs[i := r][1..] == rs[1..][i - 1 := r];
      CategorySumUpdate(rs[1..], i - 1, r, c);
    } else {
      assert rs[i := r][1..] == rs[1..];
    }
  }

  /** A category's sum is the total of the records a search by that category returns. */
  lemma {:induction false} CategorySumIsSearchTotal(rs: seq<Record>, c: string)
    requires c != ""
    ensures CategorySum(rs, c) == Total(Search(rs, "", c, ""))
  {
    if rs != [] {
      var last := rs[|rs| - 1];
      var init := rs[..|rs| - 1];
      assert rs == init + [last];
      CategorySumAppend(init, last, c);
      TotalAppend(Search(init, "", c, ""), if Matches(last, "", c, "") then [last] else []);
      CategorySumIsSearchTotal(init, c);
    }
  }

  lemma {:induction false} TotalAppend(a: seq<Record>, b: seq<Record>)
    ensures Total(a + b) == Total(a) + Total(b)
  {
    if a != [] {
      assert (a + b)[1..] == a[1..] + b;
      TotalAppend(a[1..], b);
    } else {
      assert a + b == b;
    }
  }

  /** Every amount lands in the income sum, the expense sum, or neither: the
      two sums and the records of any other category add up to the total. */
  lemma {:induction false} SumsPartitionTotal(rs: seq<Record>)
    ensures CategorySum(rs, Income) + CategorySum(rs, Expense)
            + Total(OtherCategories(rs)) == Total(rs)
  {
    if rs != [] {
      SumsPartitionTotal(rs[1..]);
    }
  }

  /** The records whose category is neither income nor expense. */
  function OtherCategories(rs: seq<Record>): (r: seq<Record>)
    ensures forall k :: 0 <= k < |r| ==> r[k].category != Income && r[k].category != Expense
  {
    if rs == [] then []
    else if rs[0].category == Income || rs[0].category == Expense then OtherCategories(rs[1..])
    else [rs[0]] + OtherCategories(rs[1..])
  }

  /** A record of any other category changes neither sum. */
  lemma OtherCategoryIgnored(rs: seq<Record>, r: Record)
    requires r.category != Income && r.category != Expense
    ensures CategorySum(rs + [r], Income) == CategorySum(rs, Income)
    ensures CategorySum(rs + [r], Expense) == CategorySum(rs, Expense)
  {
    CategorySumAppend(rs, r, Income);
    CategorySumAppend(rs, r, Expense);
  }

  // ---------------------------------------------------------------------
  // Search

  /** The filter of `search_records`: each criterion is either empty or equal,
      as a string, to the field (the amount through `str`). */
  predicate Matches(r: Record, date: string, category: string, amount: string)
  {
    && (r.date == date || date == "")
    && (r.category == category || category == "")
    && (IntToDecimal(r.amount) == amount || amount == "")
  }

  /** The records that satisfy the criteria, in the order they are stored. */
  function Search(rs: seq<Record>, date: string, category: string, amount: string): (r: seq<Record>)
    ensures |r| <= |rs|
    ensures forall k :: 0 <= k < |r| ==> Matches(r[k], date, category, amount)
    ensures forall k :: 0 <= k < |r| ==> r[k] in rs
  {
    if rs == [] then []
    else
      var last := rs[|rs| - 1];
      Search(rs[..|rs| - 1], date, category, amount)
        + (if Matches(last, date, category, amount) then [last] else [])
  }

  /** Searching two stretches of the ledger and joining the results is
      searching the whole: the search keeps the stored order. */
  lemma {:induction false} SearchConcat(a: seq<Record>, b: seq<Record>, date: string, category: string, amount: string)
    ensures Search(a + b, date, category, amount) == Search(a, date, category, amount) + Search(b, date, category, amount)
    decreases |b|
  {
    if b == [] {
      assert a + b == a;
    } else {
      var last := b[|b| - 1];
      assert (a + b)[..|a + b| - 1] == a + b[..|b| - 1];
      SearchConcat(a, b[..|b| - 1], date, category, amount);
    }
  }

  /** Every stored record that satisfies the criteria is returned. */
  lemma {:induction false} SearchComplete(rs: seq<Record>, i: nat, date: string, category: string, amount: string)
    requires i < |rs| && Matches(rs[i], date, category, amount)
    ensures rs[i] in Search(rs, date, category, amount)
  {
    if i < |rs| - 1 {
      SearchComplete(rs[..|rs| - 1], i, date, category, amount);
    }
  }

  /** With all three criteria empty the whole ledger is returned. */
  lemma {:induction false} SearchAllEmpty(rs: seq<Record>)
    ensures Search(rs, "", "", "") == rs
  {
    if rs != [] {
      SearchAllEmpty(rs[..|rs| - 1]);
    }
  }

  /** The amount criterion is exact: the decimal text of `n` selects the
      records whose amount is `n`, and no other. */
  lemma AmountCriterionExact(r: Record, n: int)
    ensures Matches(r, "", "", IntToDecimal(n)) <==> r.amount == n
  {
    if IntToDecimal(r.amount) == IntToDecimal(n) {
      DecimalInjective(r.amount, n);
    }
  }

  // ---------------------------------------------------------------------
  // The object

  /** `FinanceManager`: the ordered list of records, in insertion order. */
  class FinanceManager {
    var records: seq<Record>

    constructor ()
      ensures records == []
    {
      records := [];
    }

    /** `add_record`: append at the end. */
    method AddRecord(r: Record)
      modifies this
      ensures records == old(records) + [r]
    {
      records := records + [r];
    }

    /** `edit_record`: replace the record at `index`; `handle_input` checks the
      range first (main.py:214). */
    method EditRecord(index: int, r: Record)
      requires 0 <= index < |records|
      modifies this
      ensures records == old(records)[index := r]
    {
      records := records[index := r];
    }

    /** `get_balance`: the income total, the expense total and their difference;
        each total is what a search by that category would add up to. */
    function GetBalance(): (b: Balance)
      reads this
      ensures b.income == Total(Search(records, "", Income, ""))
      ensures b.expense == Total(Search(records, "", Expense, ""))
      ensures b.net == b.income - b.expense
    {
      CategorySumIsSearchTotal(records, Income);
      CategorySumIsSearchTotal(records, Expense);
      var income := CategorySum(records, Income);
      var expense := CategorySum(records, Expense);
      Balance(income, expense, income - expense)
    }

    /** `search_records`: one pass over the records, appending each match. */
    method SearchRecords(date: string, category: string, amount: string) returns (result: seq<Record>)
      ensures result == Search(records, date, category, amount)
    {
      result := [];
      var i := 0;
      while i < |records|
        invariant 0 <= i <= |records|
        invariant result == Search(records[..i], date, category, amount)
      {
        var r := records[i];
        assert records[..i + 1][..i] == records[..i];
        if Matches(r, date, category, amount) {
          result := result + [r];
        }
        i := i + 1;
      }
      assert records[..i] == records;
    }
  }

  /** The two-record ledger the unit tests set up. */
  function TestLedger(): seq<Record>
  {
    [Record("2024-04-10", Income, 50000, "Зарплата"), Record("2024-04-10", Expense, 15000, "Аренда")]
  }

  /** `str(150000)` is the criterion text of the unit test's amount search. */
  lemma DecimalOf150000()
    ensures IntToDecimal(150000) == "150000"
  {
    assert NatToDecimal(15) == "15";
    assert NatToDecimal(150) == "150";
    assert NatToDecimal(1500) == "1500";
    assert NatToDecimal(15000) == "15000";
  }

  /** The unit tests' searches: one income record, two on 2024-04-10, and
      none for the amount text "150000", which is neither 50000 nor 15000. */
  lemma TestLedgerSearches()
    ensures |Search(TestLedger(), "", Income, "")| == 1
    ensures |Search(TestLedger(), "2024-04-10", "", "")| == 2
    ensures Search(TestLedger(), "", "", "150000") == []
  {
    var rs := TestLedger();
    assert rs[..1] == [rs[0]];
    DecimalOf150000();
    AmountCriterionExact(rs[0], 150000);
    AmountCriterionExact(rs[1], 150000);
  }

  // ---------------------------------------------------------------------
  // The unit tests, replayed on the object

  /** `setUp`: a manager holding the two test records. */
  method SetUp() returns (manager: FinanceManager)
    ensures fresh(manager) && manager.records == TestLedger()
  {
    manager := new FinanceManager();
    manager.AddRecord(TestLedger()[0]);
    manager.AddRecord(TestLedger()[1]);
  }

  /** `test_balance` */
  method TestBalance() returns (b: Balance)
    ensures b == Balance(50000, 15000, 35000)
  {
    var manager := SetUp();
    b := manager.GetBalance();
    assert b.income == CategorySum(TestLedger(), Income) == 50000;
    assert b.expense == CategorySum(TestLedger(), Expense) == 15000;
  }

  /** `test_add_record` */
  method TestAddRecord() returns (income: int)
    ensures income == 80000
  {
    var manager := SetUp();
    var r := Record("2024-04-25", Income, 30000, "Аванс");
    manager.AddRecord(r);
    income := manager.GetBalance().income;
    CategorySumAppend(TestLedger(), r, Income);
    assert CategorySum(TestLedger(), Income) == 50000;
  }

  /** `test_edit_record` */
  method TestEditRecord() returns (income: int)
    ensures income == 80000
  {
    var manager := SetUp();
    var r := Record("2024-04-10", Income, 80000, "Зарплата");
    manager.EditRecord(0, r);
    income := manager.GetBalance().income;
    CategorySumUpdate(TestLedger(), 0, r, Income);
    assert CategorySum(TestLedger(), Income) == 50000;
  }

  /** `test_search_records` */
  method TestSearchRecords() returns (byCategory: nat, byDate: nat, byAmount: nat)
    ensures byCategory == 1 && byDate == 2 && byAmount == 0
  {
    var manager := SetUp();
    TestLedgerSearches();
    var found := manager.SearchRecords("", Income, "");
    byCategory := |found|;
    found := manager.SearchRecords("2024-04-10", "", "");
    byDate := |found|;
    found := manager.SearchRecords("", "", "150000");
    byAmount := |found|;
  }
}
