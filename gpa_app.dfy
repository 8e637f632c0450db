/**
 * The GPA application's records: a dictionary from record id (decimal text)
 * to a named list of courses with the GPA last computed for them, the
 * calculator windows open on those records, and what "Save & Calculate GPA"
 * writes back.
 */
module GpaRecords {
  import opened Results
  import opened Text
  import opened Dicts
  import opened Grades

  /** One saved record: its display name, its courses and the GPA last computed. */
  datatype Record = Record(name: string, courses: seq<Course>, gpa: real)

  /** The name a record gets when nothing else names it: "Record {key}". */
  function DefaultName(key: string): string {
    "Record " + key
  }

  /** The name update_record keeps for a key: the record's own, or the default for a new key. */
  function NameFor(records: map<string, Record>, key: string): string {
    if key in records then records[key].name else DefaultName(key)
  }

  // ---------------------------------------------------------------- record ids

  /** A set of keys that all read as integers below n. */
  predicate AllBelow(keys: set<string>, n: int) {
    forall k | k in keys :: ParseInt(k).Some? && ParseInt(k).value < n
  }

  /** An id written as the decimal text of a number above every existing id is not an existing id. */
  lemma FreshId(keys: set<string>, n: int)
    requires AllBelow(keys, n)
    ensures IntToString(n) !in keys
  {
    ParseIntToString(n);
  }

  // ---------------------------------------------------------------- calculator rows

  /** The text a stored credit shows in its entry box. */
  function CreditText(c: Credit, show: real -> string): string {
    match c
    case Number(v) => show(v)
    case Other(t) => t
  }

  /**
   * The rows a calculator window opens with: one per stored course, each
   * showing the course's grade when the scale has it and the best grade
   * otherwise; a single blank row when there are no courses.
   */
  function InitialRows(cs: seq<Course>, s: Scale, show: real -> string): (rows: seq<Row>)
    ensures |rows| == if cs == [] then 1 else |cs|
    ensures cs == [] ==> rows == [Row(Selection("", s), "")]
    ensures forall i | 0 <= i < |cs| :: rows[i] == Row(Selection(cs[i].grade, s), CreditText(cs[i].credit, show))
    ensures s != [] ==> forall i | 0 <= i < |rows| :: rows[i].grade in Keys(s)
  {
    if cs == [] then [Row(Selection("", s), "")]
    else seq(|cs|, i requires 0 <= i < |cs| => Row(Selection(cs[i].grade, s), CreditText(cs[i].credit, show)))
  }

  /** refresh_grade_options over all rows: each row's grade as Refreshed leaves it, credits untouched. */
  function Refresh(rows: seq<Row>, s: Scale): seq<Row> {
    seq(|rows|, i requires 0 <= i < |rows| => Row(Refreshed(rows[i].grade, s), rows[i].credit))
  }

  /** After a refresh every row shows a grade of a non-empty scale, and refreshing again changes nothing. */
  lemma RefreshSettles(rows: seq<Row>, s: Scale)
    ensures |Refresh(rows, s)| == |rows|
    ensures s != [] ==> forall i | 0 <= i < |rows| :: Refresh(rows, s)[i].grade in Keys(s)
    ensures forall i | 0 <= i < |rows| :: rows[i].grade in Keys(s) ==> Refresh(rows, s)[i] == rows[i]
    ensures Refresh(Refresh(rows, s), s) == Refresh(rows, s)
  {
  }

  /** The form a save stores its accepted courses in: each credit is a number. */
  function Stored(ps: seq<(string, real)>): seq<Course> {
    seq(|ps|, i requires 0 <= i < |ps| => Course(ps[i].0, Number(ps[i].1)))
  }

  /**
   * The chart of a record just saved under scale s draws exactly the courses
   * the save accepted: every one of them has a grade of s and a numeric credit.
   */
  lemma {:induction false} ChartOfSaved(ps: seq<(string, real)>, s: Scale)
    requires Contributing(ps, s)
    ensures ValidCourses(Stored(ps), s) == ps
  {
    if ps != [] {
      var init := ps[..|ps| - 1];
      assert Stored(ps)[..|ps| - 1] == Stored(init);
      ChartOfSaved(init, s);
      assert init + [ps[|ps| - 1]] == ps;
    }
  }

  // ---------------------------------------------------------------- the application

  /**
   * The id new_record picks: one more than the largest existing id read as
   * an integer, or 1 when there are none; a key that does not read as an
   * integer makes it fail (int() raises).
   */
  method NextId(keys: set<string>) returns (r: Result<int, string>)
    ensures r.Err? <==> exists k | k in keys :: ParseInt(k).None?
    ensures r.Err? ==> r.error in keys && ParseInt(r.error).None?
    ensures r.Ok? ==> AllBelow(keys, r.value)
    ensures r.Ok? && keys == {} ==> r.value == 1
    ensures r.Ok? && keys != {} ==> exists k | k in keys :: ParseInt(k) == Some(r.value - 1)
  {
    var todo := keys;
    var best := 0;
    var seen := false;
    ghost var top := "";
    while todo != {}
      invariant todo <= keys
      invariant seen <==> todo != keys
      invariant seen ==> top in keys && top !in todo && ParseInt(top) == Some(best)
      invariant !seen ==> best == 0
      invariant forall k | k in keys && k !in todo :: ParseInt(k).Some? && ParseInt(k).value <= best
      decreases todo
    {
      var k :| k in todo;
      var v := ParseInt(k);
      if v.None? {
        return Err(k);
      }
      if !seen || v.value > best {
        best, top := v.value, k;
      }
      seen := true;
      todo := todo - {k};
    }
    r := Ok(best + 1);
  }

  class GpaApp {
    var records: map<string, Record>
    var scale: Scale
    var calculators: map<string, CalculatorWindow>

    /** Every open window belongs to this application and is filed under its own key. */
    predicate Valid()
      reads this, calculators.Values
    {
      forall k | k in calculators :: calculators[k].key == k && calculators[k].app == this
    }

    constructor (records: map<string, Record>, scale: Scale)
      ensures this.records == records && this.scale == scale && calculators == map[]
      ensures Valid()
    {
      this.records := records;
      this.scale := scale;
      calculators := map[];
    }

    /** new_record: opens a calculator, marked new, on the next id, which is never an existing record's key. */
    method NewRecord(show: real -> string) returns (r: Result<string, string>)
      requires Valid()
      modifies this
      ensures Valid()
      ensures r.Ok? ==> r.value !in records && r.value in calculators
      ensures r.Ok? && r.value !in old(calculators) ==> calculators[r.value].isNew
      ensures r.Err? ==> calculators == old(calculators)
      ensures records == old(records) && scale == old(scale)
      ensures forall k | k in old(calculators) :: k in calculators && calculators[k] == old(calculators)[k]
    {
      var id := NextId(records.Keys);
      if id.Err? {
        return Err(id.error);
      }
      FreshId(records.Keys, id.value);
      var key := IntToString(id.value);
      OpenCalculator(key, true, show);
      r := Ok(key);
    }

    /** open_calculator: at most one window per key; a key that has one keeps it. */
    method OpenCalculator(key: string, isNew: bool, show: real -> string)
      requires Valid()
      modifies this
      ensures Valid()
      ensures key in old(calculators) ==> calculators == old(calculators)
      ensures key !in old(calculators) ==> calculators.Keys == old(calculators).Keys + {key} && fresh(calculators[key])
      ensures key !in old(calculators) ==> calculators[key].isNew == isNew && calculators[key].scale == scale
      ensures key !in old(calculators) ==> calculators[key].rows == InitialRows(if key in records then records[key].courses else [], scale, show)
      ensures forall k | k in old(calculators) :: calculators[k] == old(calculators)[k]
      ensures records == old(records) && scale == old(scale)
    {
      if key in calculators {
        return;
      }
      var c := new CalculatorWindow(this, key, isNew, show);
      calculators := calculators[key := c];
    }

    /** close_calculator: forgets the window for that key, if there is one. */
    method CloseCalculator(key: string)
      requires Valid()
      modifies this
      ensures Valid()
      ensures calculators == old(calculators) - {key}
      ensures records == old(records) && scale == old(scale)
    {
      calculators := calculators - {key};
    }

    /** rename_record: a name given and not empty replaces that record's name; nothing else changes. */
    method RenameRecord(key: string, newName: Option<string>)
      requires key in records
      modifies this
      ensures newName.Some? && newName.value != [] ==> records == old(records)[key := old(records)[key].(name := newName.value)]
      ensures newName.None? || newName.value == [] ==> records == old(records)
      ensures calculators == old(calculators) && scale == old(scale)
    {
      if newName.Some? && newName.value != [] {
        records := records[key := records[key].(name := newName.value)];
      }
    }

    /** delete_record: once confirmed, removes that record, and its window if open; every other record stays. */
    method DeleteRecord(key: string, confirmed: bool)
      requires key in records && Valid()
      modifies this
      ensures Valid()
      ensures confirmed ==> records == old(records) - {key} && calculators == old(calculators) - {key}
      ensures !confirmed ==> records == old(records) && calculators == old(calculators)
      ensures scale == old(scale)
    {
      if confirmed {
        records := records - {key};
        CloseCalculator(key);
      }
    }

    /**
     * update_record: stores the courses and GPA under the key, keeping the
     * record's name, or "Record {key}" for a new key; every other record stays.
     */
    method UpdateRecord(key: string, courses: seq<Course>, gpa: real)
      modifies this
      ensures records == old(records)[key := Record(NameFor(old(records), key), courses, gpa)]
      ensures calculators == old(calculators) && scale == old(scale)
    {
      records := records[key := Record(NameFor(records, key), courses, gpa)];
    }

    /**
     * The settings window's callback: the new scale becomes the application's
     * and every open window's, and each window's rows are refreshed against it.
     */
    method SettingsSaved(s: Scale)
      requires Valid()
      modifies this, calculators.Values
      ensures Valid()
      ensures scale == s && records == old(records) && calculators == old(calculators)
      ensures forall k | k in calculators :: calculators[k].scale == s
      ensures forall k | k in calculators :: calculators[k].rows == Refresh(old(calculators[k].rows), s)
      ensures forall k | k in calculators :: calculators[k].isNew == old(calculators[k].isNew)
    {
      scale := s;
      var todo := calculators.Keys;
      while todo != {}
        invariant todo <= calculators.Keys
        invariant scale == s && records == old(records) && calculators == old(calculators)
        invariant Valid()
        invariant forall k | k in calculators && k !in todo :: calculators[k].scale == s
        invariant forall k | k in calculators && k !in todo :: calculators[k].rows == Refresh(old(calculators[k].rows), s)
        invariant forall k | k in calculators && k in todo :: calculators[k].rows == old(calculators[k].rows)
        invariant forall k | k in calculators :: calculators[k].isNew == old(calculators[k].isNew)
        decreases todo
      {
        var k :| k in todo;
        var c := calculators[k];
        c.Rescale(s);
        todo := todo - {k};
      }
    }
  }

  /** One calculator window: the rows being edited, for one record key. */
  class CalculatorWindow {
    const app: GpaApp
    const key: string
    /** The record's name when the window opened; what a first save of a new record stores. */
    const name: string
    var isNew: bool
    var scale: Scale
    var rows: seq<Row>

    constructor (app: GpaApp, key: string, isNew: bool, show: real -> string)
      ensures this.app == app && this.key == key && this.isNew == isNew && scale == app.scale
      ensures name == NameFor(app.records, key)
      ensures rows == InitialRows(if key in app.records then app.records[key].courses else [], app.scale, show)
    {
      this.app := app;
      this.key := key;
      this.isNew := isNew;
      scale := app.scale;
      name := NameFor(app.records, key);
      rows := InitialRows(if key in app.records then app.records[key].courses else [], app.scale, show);
    }

    /** add_row: a new last row showing the given grade if the scale has it, else the best grade. */
    method AddRow(grade: string, credit: string)
      modifies this
      ensures rows == old(rows) + [Row(Selection(grade, scale), credit)]
      ensures scale == old(scale) && isNew == old(isNew)
    {
      rows := rows + [Row(Selection(grade, scale), credit)];
    }

    /** The user picking a grade or typing a credit in row i. */
    method Edit(i: nat, row: Row)
      requires i < |rows|
      modifies this
      ensures rows == old(rows)[i := row]
      ensures scale == old(scale) && isNew == old(isNew)
    {
      rows := rows[i := row];
    }

    /** remove_row: drops the last row, if any. */
    method RemoveRow()
      modifies this
      ensures old(rows) == [] ==> rows == []
      ensures old(rows) != [] ==> rows == old(rows)[..|old(rows)| - 1]
      ensures scale == old(scale) && isNew == old(isNew)
    {
      if rows != [] {
        rows := rows[..|rows| - 1];
      }
    }

    /** refresh_grade_options: each row whose grade the scale lacks switches to the best grade. */
    method RefreshGradeOptions()
      modifies this
      ensures rows == Refresh(old(rows), scale)
      ensures scale == old(scale) && isNew == old(isNew)
    {
      var i := 0;
      while i < |rows|
        invariant 0 <= i <= |rows| && |rows| == |old(rows)|
        invariant rows[..i] == Refresh(old(rows), scale)[..i]
        invariant rows[i..] == old(rows)[i..]
        invariant scale == old(scale) && isNew == old(isNew)
      {
        rows := rows[i := Row(Refreshed(rows[i].grade, scale), rows[i].credit)];
        i := i + 1;
      }
      assert rows == rows[..i];
    }

    /** A new scale handed over by the settings window, and the rows refreshed against it. */
    method Rescale(s: Scale)
      modifies this
      ensures scale == s && rows == Refresh(old(rows), s) && isNew == old(isNew)
    {
      scale := s;
      RefreshGradeOptions();
    }

    /**
     * save_and_calc: the rows are evaluated against the window's scale; an
     * error stores nothing. On success a new record is first created under
     * the window's name, then update_record stores the accepted courses and
     * their GPA under the key.
     */
    method SaveAndCalc(parse: string -> Option<real>) returns (r: Result<Saved, CalcError>)
      modifies this, app
      ensures r == Calc(rows, scale, parse)
      ensures r.Err? ==> app.records == old(app.records) && isNew == old(isNew)
      ensures r.Ok? ==> !isNew
      ensures r.Ok? ==> app.records == old(app.records)[key := Record(if old(isNew) then name else NameFor(old(app.records), key),
                                                                      Stored(r.value.courses), r.value.gpa)]
      ensures app.calculators == old(app.calculators) && app.scale == old(app.scale)
      ensures rows == old(rows) && scale == old(scale)
    {
      r := Evaluate(rows, scale, parse);
      if r.Err? {
        return;
      }
      if isNew {
        app.records := app.records[key := Record(name, [], 0.0)];
        isNew := false;
      }
      app.UpdateRecord(key, Stored(r.value.courses), r.value.gpa);
    }
  }

  /**
   * A successful save stores a GPA in 0.0 .. 4.0 when the scale's values are,
   * and the chart of the stored record then draws exactly the accepted courses.
   */
  lemma SavedRecord(rows: seq<Row>, s: Scale, parse: string -> Option<real>)
    requires Calc(rows, s, parse).Ok? && ScaleInRange(s)
    ensures InRange(Calc(rows, s, parse).value.gpa)
    ensures ValidCourses(Stored(Calc(rows, s, parse).value.courses), s) == Calc(rows, s, parse).value.courses
  {
    GpaInRange(rows, s, parse);
    CalcCases(rows, s, parse);
    UsedValid(rows, s, parse);
    ChartOfSaved(Calc(rows, s, parse).value.courses, s);
  }
}
