/**
 * The expense tracker window's state and its buttons: saving an entry from
 * the form, deleting the selected row, summarising a month, and setting a
 * month's budget. The expenses and budgets files are modelled as the lists
 * of lines the program reads and writes.
 */
module Tracker {
  import opened Results
  import opened Text
  import opened Dicts
  import opened Sorting
  import opened Expenses

  /** The placeholders the two drop-downs show until something is picked. */
  const NoCategory := "Select category"
  const NoAccount := "Select account"

  // ---------------------------------------------------------------- saving an entry

  /** What the entry form holds when "Save Expense" is pressed. */
  datatype Form = Form(date: string, name: string, amount: string, category: string, account: string, note: string)

  /** The message save_expense shows instead of saving, in the order it checks; Rejected is a setter's error escaping. */
  datatype SaveError = EnterName | EnterAmount | SelectCategory | SelectAccount | AmountNotNumber | AmountNotPositive
                     | DateFormat | Rejected(error: ExpenseError)

  /** The four presence checks save_expense makes first: a name, an amount, a category and an account. */
  predicate Filled(f: Form) {
    Strip(f.name) != [] && Strip(f.amount) != [] && f.category != NoCategory && f.account != NoAccount
  }

  /** Filled in, with an amount float() reads as a number above zero. */
  predicate Priced(f: Form, rt: Runtime) {
    Filled(f) && rt.float(f.amount).Some? && rt.float(f.amount).value > 0.0
  }

  /**
   * save_expense's checks and the expense it builds: a bill is a fixed
   * expense and anything else a variable one, with the fields as the
   * constructor stores them.
   */
  function Entry(f: Form, rt: Runtime): (r: Result<Expense, SaveError>)
    ensures Strip(f.name) == [] ==> r == Err(EnterName)
    ensures Strip(f.name) != [] && Strip(f.amount) == [] ==> r == Err(EnterAmount)
    ensures Strip(f.name) != [] && Strip(f.amount) != [] && f.category == NoCategory ==> r == Err(SelectCategory)
    ensures Strip(f.name) != [] && Strip(f.amount) != [] && f.category != NoCategory && f.account == NoAccount
            ==> r == Err(SelectAccount)
    ensures Filled(f) && rt.float(f.amount).None? ==> r == Err(AmountNotNumber)
    ensures Filled(f) && rt.float(f.amount).Some? && rt.float(f.amount).value <= 0.0 ==> r == Err(AmountNotPositive)
    ensures Priced(f, rt) && rt.strptime(f.date).None? ==> r == Err(DateFormat)
    ensures Priced(f, rt) && rt.strptime(f.date).Some? && Strip(f.category) == [] ==> r == Err(Rejected(EmptyCategory))
    ensures Priced(f, rt) && rt.strptime(f.date).Some? && Strip(f.category) != [] && Strip(f.account) == []
            ==> r == Err(Rejected(EmptyAccount))
    ensures r.Ok? <==> && Strip(f.name) != [] && Strip(f.amount) != []
                       && f.category != NoCategory && f.account != NoAccount
                       && rt.float(f.amount).Some? && rt.float(f.amount).value > 0.0
                       && rt.strptime(f.date).Some? && Strip(f.category) != [] && Strip(f.account) != []
    ensures r.Ok? ==> && WellFormed(r.value, rt)
                      && (r.value.kind == Fixed <==> f.category == "Bills") && r.value.kind != Plain
                      && r.value == Expense(r.value.kind, f.date, Strip(f.name), rt.float(f.amount).value,
                                            Strip(f.category), Strip(f.account), Strip(f.note))
  {
    if Strip(f.name) == [] then Err(EnterName)
    else if Strip(f.amount) == [] then Err(EnterAmount)
    else if f.category == NoCategory then Err(SelectCategory)
    else if f.account == NoAccount then Err(SelectAccount)
    else match rt.float(f.amount)
      case None => Err(AmountNotNumber)
      case Some(v) =>
        if v <= 0.0 then Err(AmountNotPositive)
        else if rt.strptime(f.date).None? then Err(DateFormat)
        else
          var kind := if f.category == "Bills" then Fixed else Variable;
          match NewExpense(kind, f.date, f.name, v, f.category, f.account, Strip(f.note), rt)
          case Err(e) => Err(Rejected(e))
          case Ok(x) =>
            StripStripped(Strip(f.note));
            Ok(x)
  }

  /** The sort key user_expense_file uses: the first '|' field of the stripped line. */
  function LineKey(line: string): SortKey {
    ByText(Split(Strip(line), '|')[0])
  }

  /** user_expense_file: the file's lines with the new line appended, stably sorted by their first field. */
  function Filed(lines: seq<string>, e: Expense, rt: Runtime): seq<string> {
    SortBy(lines + [ToLine(e, rt)], LineKey, false)
  }

  /**
   * The first field of a stored line is its tag, or the date for an untagged
   * line, so fixed and variable lines are ordered by tag, not by date.
   */
  lemma LineKeyOf(e: Expense, rt: Runtime)
    requires Storable(e, rt)
    ensures LineKey(ToLine(e, rt)) == ByText(match e.kind case Fixed => "FIXED" case Variable => "VARIABLE" case Plain => e.date)
  {
    BodyStripped(e, rt);
    BodySplits(e, rt);
    StripLine(Body(e, rt));
  }

  /** The file after user_expense_file: sorted by first field, the old lines plus the new one, equal keys in file order. */
  lemma FiledFacts(lines: seq<string>, e: Expense, rt: Runtime, k: SortKey)
    ensures SortedBy(Filed(lines, e, rt), LineKey, false)
    ensures multiset(Filed(lines, e, rt)) == multiset(lines) + multiset{ToLine(e, rt)}
    ensures WithKey(Filed(lines, e, rt), LineKey, k) == WithKey(lines + [ToLine(e, rt)], LineKey, k)
  {
    SortStable(lines + [ToLine(e, rt)], LineKey, false, k);
  }

  /** Filing the new expense's line keeps the file holding exactly the lines of the expense list. */
  lemma FiledInSync(lines: seq<string>, es: seq<Expense>, e: Expense, rt: Runtime)
    ensures multiset(lines) == multiset(ToLines(es, rt)) ==> multiset(Filed(lines, e, rt)) == multiset(ToLines(es + [e], rt))
  {
    var a, b := ToLines(es + [e], rt), ToLines(es, rt) + [ToLine(e, rt)];
    forall i | 0 <= i < |a| ensures a[i] == b[i] {
      if i < |es| {
        assert (es + [e])[i] == es[i];
      }
    }
    assert a == b;
  }

  // ---------------------------------------------------------------- deleting the selected row

  /** A row of the summary table: date, name, "RM" and the amount to two places, category, account, note. */
  datatype DisplayRow = DisplayRow(date: string, name: string, amount: string, category: string, account: string, note: string)

  function Shown(e: Expense, rt: Runtime): DisplayRow {
    DisplayRow(e.date, e.name, "RM" + rt.money(e.amount), e.category, e.account, e.note)
  }

  /** The position of the first expense shown as that row, if any. */
  function FirstMatch(es: seq<Expense>, row: DisplayRow, rt: Runtime): (r: Option<nat>)
    ensures r.Some? ==> r.value < |es| && Shown(es[r.value], rt) == row
    ensures r.Some? ==> forall j | 0 <= j < r.value :: Shown(es[j], rt) != row
    ensures r.None? <==> forall j | 0 <= j < |es| :: Shown(es[j], rt) != row
  {
    if es == [] then None
    else if Shown(es[0], rt) == row then Some(0)
    else match FirstMatch(es[1..], row, rt)
      case None => None
      case Some(i) => Some(i + 1)
  }

  /** Removing position i takes out exactly that one expense and keeps the others in order. */
  lemma RemoveAt(es: seq<Expense>, i: nat)
    requires i < |es|
    ensures |es[..i] + es[i + 1..]| == |es| - 1
    ensures multiset(es[..i] + es[i + 1..]) + multiset{es[i]} == multiset(es)
  {
    assert es == es[..i] + [es[i]] + es[i + 1..];
  }

  datatype DeleteOutcome = NoSelection | Cancelled | Deleted | NotFound

  // ---------------------------------------------------------------- summaries

  /**
   * Whether summarize_expenses lists an expense: its date must parse; a year
   * or month filter that is set must read as an integer equal to the date's
   * (int() raising skips the expense too); and the category must match
   * unless the filter is "All".
   */
  predicate Kept(e: Expense, year: string, month: string, category: string, rt: Runtime) {
    match rt.strptime(e.date)
    case None => false
    case Some(ym) =>
      && (year == [] || ParseInt(year) == Some(ym.0))
      && (month == [] || ParseInt(month) == Some(ym.1))
      && (category == "All" || e.category == category)
  }

  function Filter(es: seq<Expense>, year: string, month: string, category: string, rt: Runtime): seq<Expense> {
    if es == [] then []
    else Filter(es[..|es| - 1], year, month, category, rt) + (if Kept(es[|es| - 1], year, month, category, rt) then [es[|es| - 1]] else [])
  }

  /** The filter keeps every expense that passes, as often as it occurs, and nothing else. */
  lemma {:induction false} FilterCounts(es: seq<Expense>, year: string, month: string, category: string, rt: Runtime)
    ensures forall x :: multiset(Filter(es, year, month, category, rt))[x]
                        == if Kept(x, year, month, category, rt) then multiset(es)[x] else 0
  {
    if es != [] {
      var init := es[..|es| - 1];
      FilterCounts(init, year, month, category, rt);
      assert es == init + [es[|es| - 1]];
    }
  }

  function DateKey(e: Expense): SortKey {
    ByText(e.date)
  }

  /** The table's rows: the kept expenses by date text, latest first, same-date expenses in list order. */
  function Listed(es: seq<Expense>, year: string, month: string, category: string, rt: Runtime): seq<Expense> {
    SortBy(Filter(es, year, month, category, rt), DateKey, true)
  }

  /** The sum of the amounts, in order. */
  function Spent(es: seq<Expense>): real {
    if es == [] then 0.0 else Spent(es[..|es| - 1]) + es[|es| - 1].amount
  }

  lemma {:induction false} SpentAppend(a: seq<Expense>, b: seq<Expense>)
    ensures Spent(a + b) == Spent(a) + Spent(b)
  {
    if b != [] {
      var ab, init := a + b, b[..|b| - 1];
      assert ab[..|ab| - 1] == a + init;
      assert ab[|ab| - 1] == b[|b| - 1];
      SpentAppend(a, init);
    } else {
      assert a + b == a;
    }
  }

  lemma SpentOne(x: Expense)
    ensures Spent([x]) == x.amount
  {
    assert [x][..0] == [];
  }

  /** The total does not depend on the order the expenses are added in. */
  lemma {:induction false} SpentPerm(a: seq<Expense>, b: seq<Expense>)
    requires multiset(a) == multiset(b)
    ensures Spent(a) == Spent(b)
    decreases |a|
  {
    if a == [] {
      assert |b| == |multiset(b)| == 0;
    } else {
      var init, x := a[..|a| - 1], a[|a| - 1];
      assert a == init + [x];
      assert x in multiset(b);
      var j :| 0 <= j < |b| && b[j] == x;
      var rest := b[..j] + b[j + 1..];
      assert b == b[..j] + [x] + b[j + 1..];
      assert multiset(a) == multiset(init) + multiset{x};
      assert multiset(b) == multiset(b[..j]) + multiset{x} + multiset(b[j + 1..]);
      assert multiset(rest) == multiset(b[..j]) + multiset(b[j + 1..]);
      assert multiset(init) == multiset(a) - multiset{x};
      assert multiset(rest) == multiset(b) - multiset{x};
      SpentPerm(init, rest);
      SpentAppend(b[..j], b[j + 1..]);
      SpentAppend(b[..j] + [x], b[j + 1..]);
      SpentAppend(b[..j], [x]);
      SpentOne(x);
    }
  }

  /** (category, amount) for each expense, in order. */
  function Amounts(es: seq<Expense>): (ps: seq<(string, real)>)
    ensures |ps| == |es|
  {
    seq(|es|, i requires 0 <= i < |es| => (es[i].category, es[i].amount))
  }

  lemma {:induction false} AmountsTotal(es: seq<Expense>)
    ensures Total(Amounts(es)) == Spent(es)
  {
    if es != [] {
      AmountsTotal(es[..|es| - 1]);
      assert Amounts(es)[..|es| - 1] == Amounts(es[..|es| - 1]);
    }
  }

  /** The budget line: no budget unless the month's entry is above zero, else what is left or how far over. */
  datatype Status = NoBudget | Remaining(budget: real, left: real) | Over(budget: real, excess: real)

  function StatusOf(budget: real, total: real): (s: Status)
    ensures s == NoBudget <==> budget <= 0.0
    ensures s.Remaining? ==> s.budget == budget && s.left >= 0.0 && s.left == budget - total
    ensures s.Over? ==> s.budget == budget && s.excess > 0.0 && total == budget + s.excess
  {
    if budget > 0.0 then
      if budget - total >= 0.0 then Remaining(budget, budget - total) else Over(budget, total - budget)
    else NoBudget
  }

  /** The key a month's budget is stored under: "{year}-{month}" from the filter boxes' text. */
  function MonthKey(year: string, month: string): string {
    year + "-" + month
  }

  datatype Summary = Summary(listed: seq<Expense>, total: real, status: Status, categories: Option<Dict>)

  /**
   * What the summary shows, from the specification functions: the kept
   * expenses are listed latest first, each exactly as often as it is kept,
   * same-date expenses in list order; the total is theirs whatever the order;
   * and the per-category totals add up to it.
   */
  lemma SummaryFacts(es: seq<Expense>, year: string, month: string, category: string, rt: Runtime, d: string)
    ensures var ls := Listed(es, year, month, category, rt);
      && SortedBy(ls, DateKey, true)
      && (forall x :: multiset(ls)[x] == if Kept(x, year, month, category, rt) then multiset(es)[x] else 0)
      && WithKey(ls, DateKey, ByText(d)) == WithKey(Filter(es, year, month, category, rt), DateKey, ByText(d))
      && Spent(ls) == Spent(Filter(es, year, month, category, rt))
      && Sum(Tally(Amounts(ls))) == Spent(ls)
      && forall c :: Get(Tally(Amounts(ls)), c) == TotalFor(Amounts(ls), c)
  {
    var f := Filter(es, year, month, category, rt);
    var ls := Listed(es, year, month, category, rt);
    FilterCounts(es, year, month, category, rt);
    SortStable(f, DateKey, true, ByText(d));
    SpentPerm(ls, f);
    AmountsTotal(ls);
  }

  // ---------------------------------------------------------------- setting a budget

  datatype BudgetSetError = EnterBudget | BudgetNotNumber | BudgetNotPositive

  /** The expenses set_budget counts: date parses and both filter boxes read as that year and month. */
  predicate InMonth(e: Expense, year: string, month: string, rt: Runtime) {
    match rt.strptime(e.date)
    case None => false
    case Some(ym) => ParseInt(year) == Some(ym.0) && ParseInt(month) == Some(ym.1)
  }

  function MonthSpent(es: seq<Expense>, year: string, month: string, rt: Runtime): real {
    if es == [] then 0.0
    else MonthSpent(es[..|es| - 1], year, month, rt) + (if InMonth(es[|es| - 1], year, month, rt) then es[|es| - 1].amount else 0.0)
  }

  /** With both boxes filled and the category filter at "All", the summary keeps what set_budget counts. */
  lemma KeptInMonth(e: Expense, year: string, month: string, rt: Runtime)
    requires year != [] && month != []
    ensures Kept(e, year, month, "All", rt) == InMonth(e, year, month, rt)
  {
  }

  lemma {:induction false} MonthSpentFilter(es: seq<Expense>, year: string, month: string, rt: Runtime)
    requires year != [] && month != []
    ensures MonthSpent(es, year, month, rt) == Spent(Filter(es, year, month, "All", rt))
  {
    if es != [] {
      var init, x := es[..|es| - 1], es[|es| - 1];
      MonthSpentFilter(init, year, month, rt);
      KeptInMonth(x, year, month, rt);
      var f, last := Filter(init, year, month, "All", rt), if InMonth(x, year, month, rt) then [x] else [];
      assert Filter(es, year, month, "All", rt) == f + last;
      SpentAppend(f, last);
      SpentOne(x);
    }
  }

  /**
   * The total set_budget compares the new budget with is the one the
   * summary shows for the same year and month when the category filter is
   * "All" and both boxes are filled; it ignores the category filter.
   */
  lemma BudgetTotalAgrees(es: seq<Expense>, year: string, month: string, rt: Runtime)
    requires year != [] && month != []
    ensures MonthSpent(es, year, month, rt) == Spent(Listed(es, year, month, "All", rt))
  {
    MonthSpentFilter(es, year, month, rt);
    SpentPerm(Listed(es, year, month, "All", rt), Filter(es, year, month, "All", rt));
  }

  // ---------------------------------------------------------------- loading

  /** Once a prefix of the file fails to load, the whole file fails with the same line and error. */
  lemma {:induction false} LoadFailStays(lines: seq<string>, n: nat, rt: Runtime)
    requires n <= |lines| && Load(lines[..n], rt).Err?
    ensures Load(lines, rt) == Load(lines[..n], rt)
    decreases |lines| - n
  {
    if n < |lines| {
      assert lines[..n + 1][..n] == lines[..n];
      LoadFailStays(lines, n + 1, rt);
    } else {
      assert lines[..n] == lines;
    }
  }

  lemma {:induction false} BudgetFailStays(lines: seq<string>, n: nat, b: Dict, rt: Runtime)
    requires n <= |lines| && LoadBudgets(lines[..n], b, rt).Err?
    ensures LoadBudgets(lines, b, rt) == LoadBudgets(lines[..n], b, rt)
    decreases |lines| - n
  {
    if n < |lines| {
      assert lines[..n + 1][..n] == lines[..n];
      BudgetFailStays(lines, n + 1, b, rt);
    } else {
      assert lines[..n] == lines;
    }
  }

  /** One more line of the expenses file read after the first i. */
  lemma LoadStep(lines: seq<string>, i: nat, rt: Runtime)
    requires i < |lines| && Load(lines[..i], rt).Ok?
    ensures Load(lines[..i + 1], rt) == match ParseLine(lines[i], rt)
                                       case Err(e) => Err((i, e))
                                       case Ok(None) => Load(lines[..i], rt)
                                       case Ok(Some(x)) => Ok(Load(lines[..i], rt).value + [x])
  {
    assert lines[..i + 1][..i] == lines[..i];
  }

  /** One more line of the budgets file read after the first i. */
  lemma BudgetStep(lines: seq<string>, i: nat, b: Dict, d: Dict, rt: Runtime)
    requires i < |lines| && LoadBudgets(lines[..i], b, rt) == Ok(d)
    ensures LoadBudgets(lines[..i + 1], b, rt) == match ReadBudget(d, lines[i], rt)
                                                  case Err(e) => Err((i, e))
                                                  case Ok(d') => Ok(d')
  {
    assert lines[..i + 1][..i] == lines[..i];
  }

  // ---------------------------------------------------------------- the window

  /** summarize_expenses' running total over the listed rows. */
  method AddUp(listed: seq<Expense>) returns (total: real)
    ensures total == Spent(listed)
  {
    total := 0.0;
    for i := 0 to |listed|
      invariant total == Spent(listed[..i])
    {
      assert listed[..i + 1][..i] == listed[..i];
      total := total + listed[i].amount;
    }
    assert listed[..|listed|] == listed;
  }

  /** The pop-up's dictionary: each category's amounts added up, categories in first-listed order. */
  method CategoryTotals(listed: seq<Expense>) returns (d: Dict)
    ensures d == Tally(Amounts(listed))
  {
    d := [];
    for i := 0 to |listed|
      invariant d == Tally(Amounts(listed[..i]))
    {
      assert Amounts(listed[..i + 1])[..i] == Amounts(listed[..i]);
      d := Add(d, listed[i].category, listed[i].amount);
    }
    assert Amounts(listed[..|listed|]) == Amounts(listed);
  }

  class ExpenseTracker {
    var expenses: seq<Expense>
    var budgets: Dict
    /** expenses.txt and budgets.txt, as their lists of lines. */
    var expenseLines: seq<string>
    var budgetLines: seq<string>
    const rt: Runtime

    /** The file holds exactly the lines of the expenses in memory, in some order. */
    predicate InSync()
      reads this
    {
      multiset(expenseLines) == multiset(ToLines(expenses, rt))
    }

    constructor (expenseLines: seq<string>, budgetLines: seq<string>, rt: Runtime)
      ensures expenses == [] && budgets == [] && this.rt == rt
      ensures this.expenseLines == expenseLines && this.budgetLines == budgetLines
    {
      expenses := [];
      budgets := [];
      this.expenseLines := expenseLines;
      this.budgetLines := budgetLines;
      this.rt := rt;
    }

    /** load_expenses: each line parsed in turn and appended; the first bad line stops the program with its error. */
    method LoadExpenses() returns (r: Option<(nat, LoadError)>)
      modifies this
      ensures r.None? <==> Load(expenseLines, rt).Ok?
      ensures r.None? ==> expenses == old(expenses) + Load(expenseLines, rt).value
      ensures r.Some? ==> && Load(expenseLines, rt) == Err(r.value) && r.value.0 < |expenseLines|
                          && Load(expenseLines[..r.value.0], rt).Ok?
                          && expenses == old(expenses) + Load(expenseLines[..r.value.0], rt).value
      ensures budgets == old(budgets) && expenseLines == old(expenseLines) && budgetLines == old(budgetLines)
    {
      var lines := expenseLines;
      for i := 0 to |lines|
        invariant Load(lines[..i], rt).Ok?
        invariant expenses == old(expenses) + Load(lines[..i], rt).value
        invariant budgets == old(budgets) && expenseLines == lines && budgetLines == old(budgetLines)
      {
        LoadStep(lines, i, rt);
        match ParseLine(lines[i], rt)
        case Err(e) =>
          LoadFailStays(lines, i + 1, rt);
          return Some((i, e));
        case Ok(None) =>
        case Ok(Some(x)) =>
          expenses := expenses + [x];
      }
      assert lines[..|lines|] == lines;
      r := None;
    }

    /** load_budgets: each line's "year-month" key gets its amount; the first bad line stops the program. */
    method LoadBudgets() returns (r: Option<(nat, BudgetError)>)
      modifies this
      ensures r.None? <==> Expenses.LoadBudgets(budgetLines, old(budgets), rt).Ok?
      ensures r.None? ==> budgets == Expenses.LoadBudgets(budgetLines, old(budgets), rt).value
      ensures r.Some? ==> && Expenses.LoadBudgets(budgetLines, old(budgets), rt) == Err(r.value) && r.value.0 < |budgetLines|
                          && Expenses.LoadBudgets(budgetLines[..r.value.0], old(budgets), rt) == Ok(budgets)
      ensures expenses == old(expenses) && expenseLines == old(expenseLines) && budgetLines == old(budgetLines)
    {
      var lines := budgetLines;
      for i := 0 to |lines|
        invariant Expenses.LoadBudgets(lines[..i], old(budgets), rt) == Ok(budgets)
        invariant expenses == old(expenses) && expenseLines == old(expenseLines) && budgetLines == lines
      {
        BudgetStep(lines, i, old(budgets), budgets, rt);
        match ReadBudget(budgets, lines[i], rt)
        case Err(e) =>
          BudgetFailStays(lines, i + 1, old(budgets), rt);
          return Some((i, e));
        case Ok(d) =>
          budgets := d;
      }
      assert lines[..|lines|] == lines;
      r := None;
    }

    /**
     * save_expense: a form that fails a check leaves everything as it was;
     * otherwise the new expense is appended to the list and its line filed
     * into the expenses file.
     */
    method SaveExpense(f: Form) returns (r: Result<Expense, SaveError>)
      modifies this
      ensures r == Entry(f, rt)
      ensures r.Ok? ==> expenses == old(expenses) + [r.value] && expenseLines == Filed(old(expenseLines), r.value, rt)
      ensures r.Err? ==> expenses == old(expenses) && expenseLines == old(expenseLines)
      ensures old(InSync()) ==> InSync()
      ensures budgets == old(budgets) && budgetLines == old(budgetLines)
    {
      r := Entry(f, rt);
      if r.Ok? {
        FiledInSync(expenseLines, expenses, r.value, rt);
        expenses := expenses + [r.value];
        expenseLines := Filed(expenseLines, r.value, rt);
      }
    }

    /**
     * delete_expense: with a row selected and the deletion confirmed, the
     * first expense shown as that row is removed and the file rewritten from
     * the list; when none matches, nothing changes.
     */
    method DeleteExpense(selected: Option<DisplayRow>, confirmed: bool) returns (r: DeleteOutcome)
      modifies this
      ensures r == NoSelection <==> selected.None?
      ensures r == Cancelled <==> selected.Some? && !confirmed
      ensures r == Deleted <==> selected.Some? && confirmed && FirstMatch(old(expenses), selected.value, rt).Some?
      ensures r == Deleted ==> var i := FirstMatch(old(expenses), selected.value, rt).value;
        expenses == old(expenses)[..i] + old(expenses)[i + 1..] && expenseLines == ToLines(expenses, rt)
      ensures r != Deleted ==> expenses == old(expenses) && expenseLines == old(expenseLines)
      ensures old(InSync()) || r == Deleted ==> InSync()
      ensures budgets == old(budgets) && budgetLines == old(budgetLines)
    {
      if selected.None? {
        return NoSelection;
      }
      if !confirmed {
        return Cancelled;
      }
      var row := selected.value;
      var i := 0;
      while i < |expenses| && Shown(expenses[i], rt) != row
        invariant 0 <= i <= |expenses|
        invariant forall j | 0 <= j < i :: Shown(expenses[j], rt) != row
      {
        i := i + 1;
      }
      if i == |expenses| {
        return NotFound;
      }
      assert FirstMatch(expenses, row, rt) == Some(i);
      expenses := expenses[..i] + expenses[i + 1..];
      expenseLines := ToLines(expenses, rt);
      r := Deleted;
    }

    /**
     * summarize_expenses: the kept expenses latest first, their total, the
     * budget line for "{year}-{month}", and, when the pop-up is asked for and
     * something is listed, the per-category totals in first-listed order.
     */
    method Summarize(year: string, month: string, category: string, popup: bool) returns (s: Summary)
      ensures s.listed == Listed(expenses, year, month, category, rt)
      ensures s.total == Spent(s.listed)
      ensures s.status == StatusOf(Get(budgets, MonthKey(year, month)), s.total)
      ensures s.categories == if popup && s.listed != [] then Some(Tally(Amounts(s.listed))) else None
    {
      var kept: seq<Expense> := [];
      for i := 0 to |expenses|
        invariant kept == Filter(expenses[..i], year, month, category, rt)
      {
        assert expenses[..i + 1][..i] == expenses[..i];
        if Kept(expenses[i], year, month, category, rt) {
          kept := kept + [expenses[i]];
        }
      }
      assert expenses[..|expenses|] == expenses;
      var listed := SortBy(kept, DateKey, true);
      var total := AddUp(listed);
      var categories := None;
      if popup && listed != [] {
        var d := CategoryTotals(listed);
        categories := Some(d);
      }
      s := Summary(listed, total, StatusOf(Get(budgets, MonthKey(year, month)), total), categories);
    }

    /**
     * set_budget: a blank, non-numeric or non-positive amount is refused;
     * otherwise it becomes the budget of "{year}-{month}", the budgets file is
     * rewritten, and the status compares it with that month's spending.
     */
    method SetBudget(text: string, year: string, month: string) returns (r: Result<Status, BudgetSetError>)
      modifies this
      ensures Strip(text) == [] ==> r == Err(EnterBudget)
      ensures Strip(text) != [] && rt.float(text).None? ==> r == Err(BudgetNotNumber)
      ensures Strip(text) != [] && rt.float(text).Some? && rt.float(text).value <= 0.0 ==> r == Err(BudgetNotPositive)
      ensures r.Ok? <==> Strip(text) != [] && rt.float(text).Some? && rt.float(text).value > 0.0
      ensures r.Ok? ==> && budgets == Put(old(budgets), MonthKey(year, month), rt.float(text).value)
                        && budgetLines == BudgetLines(budgets, rt)
                        && r.value == StatusOf(rt.float(text).value, MonthSpent(expenses, year, month, rt))
                        && !r.value.NoBudget?
      ensures r.Err? ==> budgets == old(budgets) && budgetLines == old(budgetLines)
      ensures expenses == old(expenses) && expenseLines == old(expenseLines)
    {
      if Strip(text) == [] {
        return Err(EnterBudget);
      }
      var v := rt.float(text);
      if v.None? {
        return Err(BudgetNotNumber);
      }
      if v.value <= 0.0 {
        return Err(BudgetNotPositive);
      }
      budgets := Put(budgets, MonthKey(year, month), v.value);
      budgetLines := BudgetLines(budgets, rt);
      var total := 0.0;
      for i := 0 to |expenses|
        invariant total == MonthSpent(expenses[..i], year, month, rt)
      {
        assert expenses[..i + 1][..i] == expenses[..i];
        if InMonth(expenses[i], year, month, rt) {
          total := total + expenses[i].amount;
        }
      }
      assert expenses[..|expenses|] == expenses;
      r := Ok(StatusOf(v.value, total));
    }
  }
}
