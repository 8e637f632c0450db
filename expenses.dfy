/**
 * The expense ledger's records and their file formats: the Expense field
 * validators, the fixed / variable variants, the pipe-delimited line
 * to_file_format writes, the parser load_expenses applies to each line, and
 * the lines of the budgets file.
 */
module Expenses {
  import opened Results
  import opened Text
  import opened Dicts

  /** Which class an expense is: the plain base class (untagged lines), FixedExpense or VariableExpense. */
  datatype Kind = Plain | Fixed | Variable

  datatype Expense = Expense(kind: Kind, date: string, name: string, amount: real, category: string, account: string, note: string)

  /**
   * The library calls the ledger makes, as parameters: float() on text,
   * str() of a float, the "%.2f" rendering of an amount, and the year and
   * month strptime(text, "%Y-%m-%d") reads (None where it raises).
   */
  datatype Runtime = Runtime(float: string -> Option<real>, str: real -> string, money: real -> string,
                             strptime: string -> Option<(int, int)>)

  // ---------------------------------------------------------------- validation

  /** The ValueError each setter raises, in the order the constructor calls them. */
  datatype ExpenseError = BadDate | EmptyName | BadAmount | EmptyCategory | EmptyAccount

  /** What the constructor leaves in an expense: a date strptime accepts, names stripped and not empty, a positive amount. */
  predicate WellFormed(e: Expense, rt: Runtime) {
    && rt.strptime(e.date).Some?
    && e.name != [] && IsStripped(e.name)
    && e.amount > 0.0
    && e.category != [] && IsStripped(e.category)
    && e.account != [] && IsStripped(e.account)
    && IsStripped(e.note)
  }

  /**
   * Expense(date, name, amount, category, account, note): each setter in
   * turn checks its field; name, category, account and note are stored
   * stripped. An amount that is not above zero is reported as not a valid
   * number, since the setter's own error is caught and raised again.
   */
  function NewExpense(kind: Kind, date: string, name: string, amount: real, category: string, account: string, note: string,
                      rt: Runtime): (r: Result<Expense, ExpenseError>)
    ensures rt.strptime(date).None? ==> r == Err(BadDate)
    ensures rt.strptime(date).Some? && Strip(name) == [] ==> r == Err(EmptyName)
    ensures rt.strptime(date).Some? && Strip(name) != [] && amount <= 0.0 ==> r == Err(BadAmount)
    ensures r.Ok? <==> rt.strptime(date).Some? && Strip(name) != [] && amount > 0.0 && Strip(category) != [] && Strip(account) != []
    ensures rt.strptime(date).Some? && Strip(name) != [] && amount > 0.0 && Strip(category) == [] ==> r == Err(EmptyCategory)
    ensures rt.strptime(date).Some? && Strip(name) != [] && amount > 0.0 && Strip(category) != [] && Strip(account) == []
            ==> r == Err(EmptyAccount)
    ensures r.Ok? ==> WellFormed(r.value, rt)
    ensures r.Ok? ==> r.value == Expense(kind, date, Strip(name), amount, Strip(category), Strip(account), Strip(note))
  {
    if rt.strptime(date).None? then Err(BadDate)
    else if Strip(name) == [] then Err(EmptyName)
    else if amount <= 0.0 then Err(BadAmount)
    else if Strip(category) == [] then Err(EmptyCategory)
    else if Strip(account) == [] then Err(EmptyAccount)
    else Ok(Expense(kind, date, Strip(name), amount, Strip(category), Strip(account), Strip(note)))
  }

  /** Building an expense from the fields of a well-formed one gives it back unchanged. */
  lemma Rebuild(e: Expense, rt: Runtime)
    requires WellFormed(e, rt)
    ensures NewExpense(e.kind, e.date, e.name, e.amount, e.category, e.account, e.note, rt) == Ok(e)
  {
    StripStripped(e.name);
    StripStripped(e.category);
    StripStripped(e.account);
    StripStripped(e.note);
  }

  // ---------------------------------------------------------------- the line format

  /** The tag field a subclass writes in front of the base class's fields. */
  function Tag(k: Kind): seq<string> {
    match k
    case Plain => []
    case Fixed => ["FIXED"]
    case Variable => ["VARIABLE"]
  }

  /** The fields of a line, separated by '|': the tag if any, then date, name, amount, category, account and note. */
  function Fields(e: Expense, rt: Runtime): seq<string> {
    Tag(e.kind) + [e.date, e.name, rt.str(e.amount), e.category, e.account, e.note]
  }

  /** A line without its newline. */
  function Body(e: Expense, rt: Runtime): string {
    Join(Fields(e, rt), '|')
  }

  /** to_file_format, with FixedExpense and VariableExpense prefixing their tag. */
  function ToLine(e: Expense, rt: Runtime): string {
    Body(e, rt) + "\n"
  }

  /** Why a line stops load_expenses: too few fields to unpack, an amount float() refuses, or a setter's error. */
  datatype LoadError = TooFewFields | BadNumber(text: string) | Invalid(error: ExpenseError)

  /** float(amount) first, then the constructor. */
  function Build(kind: Kind, date: string, name: string, amount: string, category: string, account: string, note: string,
                 rt: Runtime): Result<Expense, LoadError> {
    match rt.float(amount)
    case None => Err(BadNumber(amount))
    case Some(v) =>
      match NewExpense(kind, date, name, v, category, account, note, rt)
      case Err(e) => Err(Invalid(e))
      case Ok(x) => Ok(x)
  }

  /** The '|' fields of a stripped line. */
  function Parts(line: string): (p: seq<string>)
    ensures |p| >= 1
  {
    Split(Strip(line), '|')
  }

  /** Whether the first field is a subclass tag. */
  predicate Tagged(p: seq<string>)
    requires |p| >= 1
  {
    p[0] == "FIXED" || p[0] == "VARIABLE"
  }

  /** Where the date field is: after the tag, if there is one. */
  function Offset(p: seq<string>): nat
    requires |p| >= 1
  {
    if Tagged(p) then 1 else 0
  }

  /** The class the first field names: a tag, or the plain base class for a legacy line. */
  function KindOf(p: seq<string>): Kind
    requires |p| >= 1
  {
    if p[0] == "FIXED" then Fixed else if p[0] == "VARIABLE" then Variable else Plain
  }

  /** The note: the field after the account, or "" when the line stops there. */
  function NoteOf(p: seq<string>): string
    requires |p| >= 1
  {
    if |p| > Offset(p) + 5 then p[Offset(p) + 5] else ""
  }

  /**
   * One line of the expenses file: stripped, a blank line gives nothing; a
   * "FIXED" or "VARIABLE" first field is a tag followed by at least five
   * fields and an optional note; any other line is a legacy line whose first
   * five fields are used, with an optional sixth as the note.
   */
  function ParseLine(line: string, rt: Runtime): (r: Result<Option<Expense>, LoadError>)
    ensures Strip(line) == [] ==> r == Ok(None)
    ensures r.Ok? && r.value.Some? ==> WellFormed(r.value.value, rt)
  {
    var l := Strip(line);
    if l == [] then Ok(None)
    else
      var p := Split(l, '|');
      if p[0] == "FIXED" || p[0] == "VARIABLE" then
        if |p| < 6 then Err(TooFewFields)
        else
          var kind := if p[0] == "FIXED" then Fixed else Variable;
          match Build(kind, p[1], p[2], p[3], p[4], p[5], if |p| > 6 then p[6] else "", rt)
          case Err(e) => Err(e)
          case Ok(x) => Ok(Some(x))
      else if |p| < 5 then Err(TooFewFields)
      else
        match Build(Plain, p[0], p[1], p[2], p[3], p[4], if |p| > 5 then p[5] else "", rt)
        case Err(e) => Err(e)
        case Ok(x) => Ok(Some(x))
  }

  /**
   * What load_expenses makes of a non-blank line: too few fields to unpack;
   * else the amount float() refuses; else the constructor's verdict on the
   * fields after the tag, if any, with the note defaulting to "". A parsed
   * line is the class its first field names, with the fields stored
   * stripped.
   */
  lemma ParseLineCases(line: string, rt: Runtime)
    ensures Strip(line) != [] ==> ParseLine(line, rt) != Ok(None)
    ensures var p, r := Parts(line), ParseLine(line, rt);
      Strip(line) != [] && |p| < Offset(p) + 5 ==> r == Err(TooFewFields)
    ensures var p, r := Parts(line), ParseLine(line, rt);
      Strip(line) != [] && |p| >= Offset(p) + 5 && rt.float(p[Offset(p) + 2]).None? ==>
        r == Err(BadNumber(p[Offset(p) + 2]))
    ensures var p, r := Parts(line), ParseLine(line, rt);
      Strip(line) != [] && |p| >= Offset(p) + 5 && rt.float(p[Offset(p) + 2]).Some? ==>
        var o := Offset(p);
        var made := NewExpense(KindOf(p), p[o], p[o + 1], rt.float(p[o + 2]).value, p[o + 3], p[o + 4], NoteOf(p), rt);
        (made.Err? ==> r == Err(Invalid(made.error))) && (made.Ok? ==> r == Ok(Some(made.value)))
    ensures var p, r := Parts(line), ParseLine(line, rt);
      r.Ok? && r.value.Some? ==>
        var o := Offset(p);
        && |p| >= o + 5
        && r.value.value == Expense(KindOf(p), p[o], Strip(p[o + 1]), rt.float(p[o + 2]).value,
                                    Strip(p[o + 3]), Strip(p[o + 4]), Strip(NoteOf(p)))
  {
  }

  /** The whole file read line by line: every expense in file order, or the first failing line's index and error. */
  function Load(lines: seq<string>, rt: Runtime): Result<seq<Expense>, (nat, LoadError)> {
    if lines == [] then Ok([])
    else
      match Load(lines[..|lines| - 1], rt)
      case Err(e) => Err(e)
      case Ok(es) =>
        match ParseLine(lines[|lines| - 1], rt)
        case Err(e) => Err((|lines| - 1, e))
        case Ok(None) => Ok(es)
        case Ok(Some(x)) => Ok(es + [x])
  }

  /** save_all_expenses: every expense's line, in list order (the file as the list of its lines). */
  function ToLines(es: seq<Expense>, rt: Runtime): (ls: seq<string>)
    ensures |ls| == |es|
  {
    seq(|es|, i requires 0 <= i < |es| => ToLine(es[i], rt))
  }

  // ---------------------------------------------------------------- round trip

  predicate NoBreak(s: string) {
    '|' !in s && '\n' !in s && '\r' !in s
  }

  /**
   * An expense the file keeps intact: well-formed; no field, nor the text
   * str() writes for the amount, holds '|' or a line break; that text reads
   * back as the amount and has no surrounding whitespace; the date is
   * stripped, and an untagged line's date is not itself a tag.
   */
  predicate Storable(e: Expense, rt: Runtime) {
    && WellFormed(e, rt)
    && NoBreak(e.date) && NoBreak(e.name) && NoBreak(e.category) && NoBreak(e.account) && NoBreak(e.note)
    && NoBreak(rt.str(e.amount)) && IsStripped(rt.str(e.amount)) && rt.float(rt.str(e.amount)) == Some(e.amount)
    && IsStripped(e.date)
    && (e.kind == Plain ==> e.date != "FIXED" && e.date != "VARIABLE")
  }

  predicate AllStorable(es: seq<Expense>, rt: Runtime) {
    forall i | 0 <= i < |es| :: Storable(es[i], rt)
  }

  /** The last character of a join of two or more parts is the last part's own, or the separator when that part is empty. */
  lemma {:induction false} JoinLast(parts: seq<string>, sep: char)
    requires |parts| >= 2
    ensures |Join(parts, sep)| > 0
    ensures var j, l := Join(parts, sep), parts[|parts| - 1];
      j[|j| - 1] == if l == [] then sep else l[|l| - 1]
  {
    if |parts| > 2 {
      JoinLast(parts[1..], sep);
    }
  }

  /** A character that is neither the separator nor in any part is not in the join. */
  lemma {:induction false} JoinExcludes(parts: seq<string>, sep: char, c: char)
    requires c != sep && forall i | 0 <= i < |parts| :: c !in parts[i]
    ensures c !in Join(parts, sep)
  {
    if |parts| > 1 {
      JoinExcludes(parts[1..], sep, c);
    }
  }

  /** A stored line has no whitespace at either end: it starts with a tag or the date and ends with the note or '|'. */
  lemma BodyStripped(e: Expense, rt: Runtime)
    requires Storable(e, rt)
    ensures IsStripped(Body(e, rt)) && Body(e, rt) != []
  {
    var f := Fields(e, rt);
    JoinLast(f, '|');
    assert Join(f, '|') == f[0] + ['|'] + Join(f[1..], '|');
  }

  /** A stored line holds no line break and splits back into its fields. */
  lemma BodySplits(e: Expense, rt: Runtime)
    requires Storable(e, rt)
    ensures '\n' !in Body(e, rt) && '\r' !in Body(e, rt)
    ensures Split(Body(e, rt), '|') == Fields(e, rt)
  {
    var f := Fields(e, rt);
    JoinExcludes(f, '|', '\n');
    JoinExcludes(f, '|', '\r');
    SplitJoin(f, '|');
  }

  /** A line is read from its stripped text only. */
  lemma ParseStripped(a: string, b: string, rt: Runtime)
    requires Strip(a) == Strip(b)
    ensures ParseLine(a, rt) == ParseLine(b, rt)
  {
  }

  lemma BodyParses(e: Expense, rt: Runtime)
    requires Storable(e, rt)
    ensures ParseLine(Body(e, rt), rt) == Ok(Some(e))
  {
    BodyStripped(e, rt);
    BodySplits(e, rt);
    StripStripped(Body(e, rt));
    Rebuild(e, rt);
  }

  /** Parsing the line to_file_format writes gives back the same kind of expense with the same fields. */
  lemma LineRoundTrip(e: Expense, rt: Runtime)
    requires Storable(e, rt)
    ensures ParseLine(ToLine(e, rt), rt) == Ok(Some(e))
    ensures ParseLine(Body(e, rt), rt) == Ok(Some(e))
  {
    BodyParses(e, rt);
    BodyStripped(e, rt);
    BodySplits(e, rt);
    StripLine(Body(e, rt));
    StripStripped(Body(e, rt));
    ParseStripped(ToLine(e, rt), Body(e, rt), rt);
  }

  /** Reading back the lines save_all_expenses writes gives the same expenses in the same order. */
  lemma {:induction false} FileRoundTrip(es: seq<Expense>, rt: Runtime)
    requires AllStorable(es, rt)
    ensures Load(ToLines(es, rt), rt) == Ok(es)
  {
    var lines := ToLines(es, rt);
    if es != [] {
      var init, last := es[..|es| - 1], es[|es| - 1];
      assert es == init + [last];
      assert AllStorable(init, rt) && Storable(last, rt);
      FileRoundTrip(init, rt);
      assert lines[..|lines| - 1] == ToLines(init, rt);
      LineRoundTrip(last, rt);
    }
  }

  /** A line with no note field (six fields with a tag, five without) reads the note as "". */
  lemma NoteDefaults(line: string, rt: Runtime)
    requires var p := Split(Strip(line), '|');
      || (|p| == 6 && (p[0] == "FIXED" || p[0] == "VARIABLE"))
      || (|p| == 5 && p[0] != "FIXED" && p[0] != "VARIABLE")
    requires Strip(line) != [] && ParseLine(line, rt).Ok?
    ensures ParseLine(line, rt).value.Some? && ParseLine(line, rt).value.value.note == []
  {
  }

  // ---------------------------------------------------------------- budgets file

  /** Why a budgets line stops load_budgets: not exactly two fields, or an amount float() refuses. */
  datatype BudgetError = NotTwoFields | BudgetNumber(text: string)

  /**
   * load_budgets: every non-blank stripped line splits into "year-month" and
   * an amount, stored in the dictionary (a later line for the same key wins).
   */
  function LoadBudgets(lines: seq<string>, b: Dict, rt: Runtime): Result<Dict, (nat, BudgetError)> {
    if lines == [] then Ok(b)
    else
      match LoadBudgets(lines[..|lines| - 1], b, rt)
      case Err(e) => Err(e)
      case Ok(d) =>
        match ReadBudget(d, lines[|lines| - 1], rt)
        case Err(e) => Err((|lines| - 1, e))
        case Ok(d') => Ok(d')
  }

  /** One line of the budgets file applied to the dictionary read so far. */
  function ReadBudget(d: Dict, line: string, rt: Runtime): Result<Dict, BudgetError> {
    var l := Strip(line);
    if l == [] then Ok(d)
    else
      var p := Split(l, '|');
      if |p| != 2 then Err(NotTwoFields)
      else match rt.float(p[1])
        case None => Err(BudgetNumber(p[1]))
        case Some(v) => Ok(Put(d, p[0], v))
  }

  /** One line of the budgets file: "key|amount" and a newline. */
  function BudgetLine(k: string, x: real, rt: Runtime): string {
    k + "|" + rt.str(x) + "\n"
  }

  /** save_all_budgets: one line per entry, in dictionary order. */
  function BudgetLines(b: Dict, rt: Runtime): (ls: seq<string>)
    ensures |ls| == |b|
  {
    seq(|b|, i requires 0 <= i < |b| => BudgetLine(b[i].0, b[i].1, rt))
  }

  /** An entry the budgets file keeps intact. */
  predicate StorableBudget(k: string, x: real, rt: Runtime) {
    && NoBreak(k) && (k == [] || !IsSpace(k[0]))
    && NoBreak(rt.str(x)) && rt.str(x) != [] && IsStripped(rt.str(x)) && rt.float(rt.str(x)) == Some(x)
  }

  lemma ReadBudgetLine(k: string, x: real, rt: Runtime)
    requires StorableBudget(k, x, rt)
    ensures Strip(BudgetLine(k, x, rt)) == k + "|" + rt.str(x)
    ensures Split(k + "|" + rt.str(x), '|') == [k, rt.str(x)]
  {
    var l := k + "|" + rt.str(x);
    assert l == Join([k, rt.str(x)], '|');
    JoinLast([k, rt.str(x)], '|');
    assert BudgetLine(k, x, rt) == l + "\n";
    StripLine(l);
    SplitJoin([k, rt.str(x)], '|');
  }

  /** Reading back the lines save_all_budgets writes gives the same dictionary, in the same order. */
  lemma {:induction false} BudgetsRoundTrip(b: Dict, rt: Runtime)
    requires Distinct(b) && forall i | 0 <= i < |b| :: StorableBudget(b[i].0, b[i].1, rt)
    ensures LoadBudgets(BudgetLines(b, rt), [], rt) == Ok(b)
  {
    var lines := BudgetLines(b, rt);
    if b != [] {
      var init, last := b[..|b| - 1], b[|b| - 1];
      assert b == init + [last];
      assert Distinct(init);
      BudgetsRoundTrip(init, rt);
      assert lines[..|lines| - 1] == BudgetLines(init, rt);
      ReadBudgetLine(last.0, last.1, rt);
      assert last.0 !in Keys(init);
      PutPlacement(init, last.0, last.1);
    }
  }
}
