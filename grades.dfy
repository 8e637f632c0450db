/**
 * The grade side of the GPA calculator in CHANSIMYEE.py: the grade scale
 * (grade name to GPA points, kept in dict order), the row validation and
 * credit-weighted average of "Save & Calculate GPA", the default grade a
 * row shows, the per-grade credit totals of the chart, and the grade
 * settings window. float() and str(float) are parameters.
 */
module Grades {
  import opened Results
  import opened Text
  import opened Dicts
  import opened Sorting

  /** Grade name to GPA points, in dict order. */
  type Scale = Dict

  const DefaultScale: Scale := [
    ("A+", 4.0), ("A", 4.0), ("A-", 3.7),
    ("B+", 3.3), ("B", 3.0), ("B-", 2.7),
    ("C+", 2.3), ("C", 2.0), ("C-", 1.7),
    ("D", 1.0), ("F", 0.0)]

  /** The range the settings window enforces for a GPA value. */
  predicate InRange(x: real) {
    0.0 <= x <= 4.0
  }

  predicate ScaleInRange(s: Scale) {
    forall i | 0 <= i < |s| :: InRange(s[i].1)
  }

  /** The default scale names each grade once and keeps every value in range. */
  lemma DefaultScaleWellFormed()
    ensures Distinct(DefaultScale) && ScaleInRange(DefaultScale)
  {
  }

  /** The default scale's best grade is "A+": it is first and no later grade beats its 4.0. */
  lemma DefaultScaleBest()
    ensures DefaultScale[FirstMax(DefaultScale)].0 == "A+"
  {
    var i := FirstMax(DefaultScale);
    assert DefaultScale[i].1 <= 4.0 by {
      DefaultScaleWellFormed();
    }
    assert i == 0 by {
      assert DefaultScale[i].1 <= DefaultScale[0].1;
    }
  }

  /** Every lookup into a scale in range (a missing grade reads 0.0) is in range. */
  lemma {:induction false} GetInRange(s: Scale, g: string)
    requires ScaleInRange(s)
    ensures InRange(Get(s, g))
  {
    if s != [] && s[0].0 != g {
      GetInRange(s[1..], g);
    }
  }

  // ---------------------------------------------------------------- ordering

  function GpaKey(e: (string, real)): SortKey {
    ByNumber(e.1)
  }

  /** sorted(scale.items(), key=GPA, reverse=True): the order both windows list the grades in. */
  function ByGpa(s: Scale): Scale {
    SortBy(s, GpaKey, true)
  }

  /**
   * The first of the grades sorted by GPA, highest first, is the first
   * grade in dict order with the largest GPA: the sort is stable.
   */
  lemma {:induction false} ByGpaHead(s: Scale)
    requires s != []
    ensures ByGpa(s)[0] == s[FirstMax(s)]
  {
    if |s| > 1 {
      var init := s[..|s| - 1];
      ByGpaHead(init);
      assert forall m | 0 <= m < |init| :: init[m] == s[m];
      var u := SortBy(init, GpaKey, true);
      assert ByGpa(s) == Insert(s[|s| - 1], u, GpaKey, true);
    }
  }

  /** The best grade: the one at the top of every grade list. */
  function Highest(s: Scale): (g: string)
    requires s != []
    ensures g in Keys(s)
    ensures g == ByGpa(s)[0].0
    ensures Distinct(s) ==> forall k | k in Keys(s) :: Get(s, k) <= Get(s, g)
  {
    var i := FirstMax(s);
    ByGpaHead(s);
    assert Distinct(s) ==> forall k | k in Keys(s) :: Get(s, k) <= Get(s, s[i].0) by {
      if Distinct(s) {
        GetAt(s, i);
        forall k | k in Keys(s) ensures Get(s, k) <= Get(s, s[i].0) {
          var j :| 0 <= j < |s| && s[j].0 == k;
          GetAt(s, j);
        }
      }
    }
    s[i].0
  }

  /**
   * The grade add_row shows: the row's own grade when it is a grade of the
   * scale, otherwise the best grade; nothing when the scale is empty.
   */
  function Selection(grade: string, s: Scale): (r: string)
    ensures grade != "" && grade in Keys(s) ==> r == grade
    ensures s != [] ==> r in Keys(s)
    ensures s != [] && (grade == "" || grade !in Keys(s)) ==> r == ByGpa(s)[0].0
    ensures s == [] ==> r == ""
  {
    if grade != "" && grade in Keys(s) then grade
    else if s != [] then Highest(s)
    else ""
  }

  /**
   * refresh_grade_options for one row: a grade the scale no longer has is
   * replaced by the best grade; a known grade, or any grade when the scale
   * is empty, stays.
   */
  function Refreshed(grade: string, s: Scale): (r: string)
    ensures grade in Keys(s) ==> r == grade
    ensures s != [] ==> r in Keys(s)
    ensures s != [] && grade !in Keys(s) ==> r == ByGpa(s)[0].0
    ensures s == [] ==> r == grade
  {
    if grade !in Keys(s) && s != [] then Highest(s) else grade
  }

  // ---------------------------------------------------------------- calculation

  /** One course row of the calculator: the selected grade and the credit-hours text. */
  datatype Row = Row(grade: string, credit: string)

  datatype CalcError = InvalidGrade(grade: string) | InvalidCredit | NonPositiveCredit | NoCredits

  /** What save_and_calc makes of one row. */
  datatype RowOutcome = Skip | Use(grade: string, credit: real) | Reject(error: CalcError)

  /**
   * A row with no credit text is skipped; otherwise its grade must be in the
   * scale and its credit a number above zero, checked in that order.
   */
  function Outcome(row: Row, s: Scale, parse: string -> Option<real>): RowOutcome {
    var grade := Upper(Strip(row.grade));
    var credit := Strip(row.credit);
    if credit == [] then Skip
    else if grade !in Keys(s) then Reject(InvalidGrade(grade))
    else match parse(credit)
      case None => Reject(InvalidCredit)
      case Some(c) => if c <= 0.0 then Reject(NonPositiveCredit) else Use(grade, c)
  }

  /**
   * The four cases of a row: skipped exactly when its credit text is blank;
   * used only with a grade of the scale and a credit that reads as a number
   * above zero; refused for its grade exactly when the credit is filled in
   * and the grade is not in the scale; never refused for lack of credits.
   */
  lemma OutcomeCases(row: Row, s: Scale, parse: string -> Option<real>)
    ensures var r := Outcome(row, s, parse);
      && (r.Skip? <==> Strip(row.credit) == [])
      && (r.Use? ==> r.grade == Upper(Strip(row.grade)) && r.grade in Keys(s) && r.credit > 0.0
                     && parse(Strip(row.credit)) == Some(r.credit))
      && (r == Reject(InvalidGrade(Upper(Strip(row.grade)))) <==> Strip(row.credit) != [] && Upper(Strip(row.grade)) !in Keys(s))
      && (r.Reject? ==> r.error != NoCredits)
  {
  }

  /** What save_and_calc makes of each row, in row order. */
  function Outcomes(rows: seq<Row>, s: Scale, parse: string -> Option<real>): (os: seq<RowOutcome>)
    ensures |os| == |rows|
  {
    seq(|rows|, i requires 0 <= i < |rows| => Outcome(rows[i], s, parse))
  }

  /** The (grade, credit) pairs of the contributing rows among the first n, in row order. */
  function Used(os: seq<RowOutcome>, n: nat): (ps: seq<(string, real)>)
    requires n <= |os|
    ensures |ps| <= n
  {
    if n == 0 then []
    else
      var o := os[n - 1];
      Used(os, n - 1) + (if o.Use? then [(o.grade, o.credit)] else [])
  }

  /** The error of the first rejected row among the first n, if any. */
  function FirstReject(os: seq<RowOutcome>, n: nat): Option<CalcError>
    requires n <= |os|
  {
    if n == 0 then None
    else
      var earlier := FirstReject(os, n - 1);
      var o := os[n - 1];
      if earlier.Some? then earlier else if o.Reject? then Some(o.error) else None
  }

  /** Every contributing pair comes from a row whose outcome was to use it. */
  lemma {:induction false} UsedFrom(os: seq<RowOutcome>, n: nat)
    requires n <= |os|
    ensures forall i | 0 <= i < |Used(os, n)| :: exists j | 0 <= j < n :: os[j] == Use(Used(os, n)[i].0, Used(os, n)[i].1)
  {
    if n > 0 {
      UsedFrom(os, n - 1);
      var prev, ps := Used(os, n - 1), Used(os, n);
      forall i | 0 <= i < |ps| ensures exists j | 0 <= j < n :: os[j] == Use(ps[i].0, ps[i].1) {
        if i < |prev| {
          assert ps[i] == prev[i];
          var j :| 0 <= j < n - 1 && os[j] == Use(prev[i].0, prev[i].1);
        } else {
          assert os[n - 1] == Use(ps[i].0, ps[i].1);
        }
      }
    } else {
      assert Used(os, n) == [];
    }
  }

  /** A rejection is found exactly when some row was rejected, and it is that row's error. */
  lemma {:induction false} RejectFrom(os: seq<RowOutcome>, n: nat)
    requires n <= |os|
    ensures FirstReject(os, n).Some? <==> exists j | 0 <= j < n :: os[j].Reject?
    ensures FirstReject(os, n).Some? ==> exists j | 0 <= j < n :: os[j] == Reject(FirstReject(os, n).value)
  {
    if n > 0 {
      RejectFrom(os, n - 1);
    }
  }

  /** total_points: each contributing grade's GPA times its credit. */
  function Points(ps: seq<(string, real)>, s: Scale): real {
    if ps == [] then 0.0 else Points(ps[..|ps| - 1], s) + Weight(ps[|ps| - 1], s)
  }

  /** A course's grade points: its grade's GPA times its credit. */
  function Weight(p: (string, real), s: Scale): real {
    Get(s, p.0) * p.1
  }

  lemma SumsAppend(ps: seq<(string, real)>, p: (string, real), s: Scale)
    ensures Points(ps + [p], s) == Points(ps, s) + Weight(p, s)
    ensures Total(ps + [p]) == Total(ps) + p.1
  {
    assert (ps + [p])[..|ps|] == ps;
  }

  /** What a successful save stores: the contributing courses and their weighted average. */
  datatype Saved = Saved(courses: seq<(string, real)>, gpa: real)

  /** total_points / total_credits. */
  function Mean(points: real, credits: real): real
    requires credits != 0.0
  {
    points / credits
  }

  /** The verdict on a list of row outcomes: the first rejection, else the weighted average if there are credits. */
  function Decide(os: seq<RowOutcome>, s: Scale): Result<Saved, CalcError> {
    var ps := Used(os, |os|);
    match FirstReject(os, |os|)
    case Some(e) => Err(e)
    case None =>
      if Total(ps) == 0.0 then Err(NoCredits)
      else Ok(Saved(ps, Mean(Points(ps, s), Total(ps))))
  }

  /** The result of "Save & Calculate GPA" on the given rows. */
  function Calc(rows: seq<Row>, s: Scale, parse: string -> Option<real>): Result<Saved, CalcError> {
    Decide(Outcomes(rows, s, parse), s)
  }

  /** Courses that may contribute: grades in the scale, credits above zero. */
  predicate Contributing(ps: seq<(string, real)>, s: Scale) {
    forall i | 0 <= i < |ps| :: ps[i].0 in Keys(s) && ps[i].1 > 0.0
  }

  /** Every contributing course has a grade of the scale and a credit above zero. */
  lemma UsedValid(rows: seq<Row>, s: Scale, parse: string -> Option<real>)
    ensures Contributing(Used(Outcomes(rows, s, parse), |rows|), s)
  {
    var os := Outcomes(rows, s, parse);
    var ps := Used(os, |rows|);
    UsedFrom(os, |rows|);
    forall i | 0 <= i < |ps| ensures ps[i].0 in Keys(s) && ps[i].1 > 0.0 {
      var j :| 0 <= j < |rows| && os[j] == Use(ps[i].0, ps[i].1);
      OutcomeCases(rows[j], s, parse);
    }
  }

  /** A rejection is never the "no credits" error, which only the final check raises. */
  lemma RejectNotNoCredits(rows: seq<Row>, s: Scale, parse: string -> Option<real>)
    ensures FirstReject(Outcomes(rows, s, parse), |rows|) != Some(NoCredits)
  {
    var os := Outcomes(rows, s, parse);
    RejectFrom(os, |rows|);
    if FirstReject(os, |rows|).Some? {
      var j :| 0 <= j < |rows| && os[j] == Reject(FirstReject(os, |rows|).value);
      OutcomeCases(rows[j], s, parse);
    }
  }

  /** Outcome lists that agree on their first n entries agree on what those entries contribute and reject. */
  lemma {:induction false} SamePrefix(os: seq<RowOutcome>, os': seq<RowOutcome>, n: nat)
    requires n <= |os| && n <= |os'| && os[..n] == os'[..n]
    ensures Used(os, n) == Used(os', n)
    ensures FirstReject(os, n) == FirstReject(os', n)
  {
    if n > 0 {
      assert os[n - 1] == os[..n][n - 1] == os'[..n][n - 1] == os'[n - 1];
      assert os[..n - 1] == os[..n][..n - 1] == os'[..n][..n - 1] == os'[..n - 1];
      SamePrefix(os, os', n - 1);
    }
  }

  /** Once the first n rows hold a rejected row, every longer prefix is rejected for the same reason. */
  lemma {:induction false} PrefixReject(os: seq<RowOutcome>, n: nat, m: nat)
    requires n <= m <= |os| && FirstReject(os, n).Some?
    ensures FirstReject(os, m) == FirstReject(os, n)
    decreases m - n
  {
    if n < m {
      PrefixReject(os, n, m - 1);
    }
  }

  /** What the loop of save_and_calc holds after the first i rows: no rejection, their courses, and those courses' sums. */
  predicate Scanned(os: seq<RowOutcome>, i: nat, courses: seq<(string, real)>, points: real, credits: real, s: Scale) {
    && i <= |os| && FirstReject(os, i).None? && courses == Used(os, i)
    && points == Points(courses, s) && credits == Total(courses)
  }

  /** One more row that is not rejected: its pair, if any, joins the courses and their sums. */
  lemma Accepted(os: seq<RowOutcome>, i: nat, courses: seq<(string, real)>, points: real, credits: real, s: Scale)
    requires i < |os| && Scanned(os, i, courses, points, credits, s) && !os[i].Reject?
    ensures os[i].Use? ==> var p := (os[i].grade, os[i].credit);
      Scanned(os, i + 1, courses + [p], points + Weight(p, s), credits + p.1, s)
    ensures !os[i].Use? ==> Scanned(os, i + 1, courses, points, credits, s)
  {
    if os[i].Use? {
      SumsAppend(courses, (os[i].grade, os[i].credit), s);
    }
  }

  /**
   * The loop of save_and_calc: the rows in order, accumulating total_points,
   * total_credits and the course list, stopping at the first invalid row.
   */
  method Scan(rows: seq<Row>, s: Scale, parse: string -> Option<real>)
    returns (err: Option<CalcError>, courses: seq<(string, real)>, totalPoints: real, totalCredits: real)
    ensures err == FirstReject(Outcomes(rows, s, parse), |rows|)
    ensures err.None? ==> courses == Used(Outcomes(rows, s, parse), |rows|)
    ensures err.None? ==> totalPoints == Points(courses, s) && totalCredits == Total(courses)
  {
    ghost var os := Outcomes(rows, s, parse);
    totalPoints, totalCredits := 0.0, 0.0;
    courses := [];
    var i := 0;
    while i < |rows|
      invariant i <= |rows|
      invariant Scanned(os, i, courses, totalPoints, totalCredits, s)
    {
      var o := Outcome(rows[i], s, parse);
      assert o == os[i];
      if o.Reject? {
        PrefixReject(os, i + 1, |os|);
        return Some(o.error), courses, totalPoints, totalCredits;
      }
      Accepted(os, i, courses, totalPoints, totalCredits, s);
      if o.Use? {
        var p := (o.grade, o.credit);
        totalPoints, totalCredits, courses := totalPoints + Weight(p, s), totalCredits + p.1, courses + [p];
      }
      i := i + 1;
    }
    err := None;
  }

  /** save_and_calc up to the update of the record: the courses to store and their GPA, or the error shown. */
  method Evaluate(rows: seq<Row>, s: Scale, parse: string -> Option<real>) returns (r: Result<Saved, CalcError>)
    ensures r == Calc(rows, s, parse)
  {
    var err, courses, totalPoints, totalCredits := Scan(rows, s, parse);
    if err.Some? {
      return Err(err.value);
    }
    if totalCredits == 0.0 {
      return Err(NoCredits);
    }
    r := Ok(Saved(courses, Mean(totalPoints, totalCredits)));
  }

  /** A skipped row at the end changes nothing about the verdict. */
  lemma SkipIgnored(os: seq<RowOutcome>, s: Scale)
    ensures Decide(os + [Skip], s) == Decide(os, s)
  {
    var os' := os + [Skip];
    assert os'[..|os|] == os[..|os|];
    SamePrefix(os', os, |os|);
    assert Used(os', |os'|) == Used(os', |os|);
    assert FirstReject(os', |os'|) == FirstReject(os', |os|);
  }

  /** A trailing row with empty credit text changes nothing about the result. */
  lemma BlankRowIgnored(rows: seq<Row>, row: Row, s: Scale, parse: string -> Option<real>)
    requires Strip(row.credit) == []
    ensures Calc(rows + [row], s, parse) == Calc(rows, s, parse)
  {
    var os, os' := Outcomes(rows + [row], s, parse), Outcomes(rows, s, parse);
    assert os == os' + [Skip] by {
      assert os[|rows|] == Outcome(row, s, parse);
      forall i | 0 <= i < |rows| ensures os[i] == os'[i] {
        assert (rows + [row])[i] == rows[i];
      }
    }
    SkipIgnored(os', s);
  }

  /** With every credit contributing above zero, no credits at all means no contributing row. */
  lemma {:induction false} TotalPositive(ps: seq<(string, real)>)
    requires forall i | 0 <= i < |ps| :: ps[i].1 > 0.0
    ensures Total(ps) >= 0.0
    ensures Total(ps) == 0.0 <==> ps == []
  {
    if ps != [] {
      assert forall i | 0 <= i < |ps| - 1 :: ps[..|ps| - 1][i] == ps[i];
      TotalPositive(ps[..|ps| - 1]);
    }
  }

  /**
   * Calc fails for lack of credits exactly when no row is rejected and none
   * contributes, so a failed save stores nothing; a success stores exactly
   * the contributing courses, in row order, with their weighted average.
   */
  lemma CalcCases(rows: seq<Row>, s: Scale, parse: string -> Option<real>)
    ensures var os := Outcomes(rows, s, parse);
      Calc(rows, s, parse) == Err(NoCredits) <==> FirstReject(os, |rows|).None? && Used(os, |rows|) == []
    ensures var os := Outcomes(rows, s, parse);
      Calc(rows, s, parse).Ok? ==>
        && FirstReject(os, |rows|).None? && Used(os, |rows|) != []
        && Calc(rows, s, parse).value.courses == Used(os, |rows|)
        && Calc(rows, s, parse).value.gpa == Mean(Points(Used(os, |rows|), s), Total(Used(os, |rows|)))
  {
    UsedValid(rows, s, parse);
    RejectNotNoCredits(rows, s, parse);
    TotalPositive(Used(Outcomes(rows, s, parse), |rows|));
  }

  lemma WeightBounds(p: (string, real), s: Scale)
    requires ScaleInRange(s) && p.1 >= 0.0
    ensures 0.0 <= Weight(p, s) <= 4.0 * p.1
  {
    GetInRange(s, p.0);
    var v := Get(s, p.0);
    assert (4.0 - v) * p.1 >= 0.0;
  }

  lemma {:induction false} PointsBounds(ps: seq<(string, real)>, s: Scale)
    requires ScaleInRange(s)
    requires forall i | 0 <= i < |ps| :: ps[i].1 >= 0.0
    ensures 0.0 <= Points(ps, s) <= 4.0 * Total(ps)
  {
    if ps != [] {
      var init, last := ps[..|ps| - 1], ps[|ps| - 1];
      assert forall i | 0 <= i < |init| :: init[i] == ps[i];
      PointsBounds(init, s);
      WeightBounds(last, s);
      assert Points(ps, s) == Points(init, s) + Weight(last, s);
      assert Total(ps) == Total(init) + last.1;
    }
  }

  /**
   * With every GPA of the scale in 0.0 .. 4.0, a computed GPA lies in
   * 0.0 .. 4.0: it is a credit-weighted average of values in that range.
   */
  lemma GpaInRange(rows: seq<Row>, s: Scale, parse: string -> Option<real>)
    requires ScaleInRange(s)
    ensures Calc(rows, s, parse).Ok? ==> InRange(Calc(rows, s, parse).value.gpa)
  {
    var ps := Used(Outcomes(rows, s, parse), |rows|);
    UsedValid(rows, s, parse);
    PointsBounds(ps, s);
    TotalPositive(ps);
    if Calc(rows, s, parse).Ok? {
      AverageBound(Points(ps, s), Total(ps));
    }
  }

  lemma AverageBound(p: real, t: real)
    requires t > 0.0 && 0.0 <= p <= 4.0 * t
    ensures InRange(Mean(p, t))
  {
    assert Mean(p, t) * t == p;
  }

  // ---------------------------------------------------------------- chart

  /** A course as a record stores it: the credit is a number, or other data found in the records file. */
  datatype Credit = Number(value: real) | Other(text: string)

  datatype Course = Course(grade: string, credit: Credit)

  /** The courses show_chart draws: grade in the current scale and numeric credit, in stored order. */
  function ValidCourses(cs: seq<Course>, s: Scale): (ps: seq<(string, real)>)
    ensures |ps| <= |cs|
    ensures forall i | 0 <= i < |ps| :: ps[i].0 in Keys(s)
  {
    if cs == [] then []
    else
      var c := cs[|cs| - 1];
      ValidCourses(cs[..|cs| - 1], s) + (if c.grade in Keys(s) && c.credit.Number? then [(c.grade, c.credit.value)] else [])
  }

  /** Which courses are drawn: exactly those with a grade of the scale and a numeric credit, each as often as stored. */
  lemma {:induction false} ValidCoursesSelect(cs: seq<Course>, s: Scale)
    ensures forall p :: multiset(ValidCourses(cs, s))[p]
                        == if p.0 in Keys(s) then multiset(cs)[Course(p.0, Number(p.1))] else 0
  {
    if cs != [] {
      var init, c := cs[..|cs| - 1], cs[|cs| - 1];
      ValidCoursesSelect(init, s);
      assert cs == init + [c];
      var tail := if c.grade in Keys(s) && c.credit.Number? then [(c.grade, c.credit.value)] else [];
      assert multiset(ValidCourses(cs, s)) == multiset(ValidCourses(init, s)) + multiset(tail);
      assert multiset(cs) == multiset(init) + multiset{c};
      forall p ensures multiset(ValidCourses(cs, s))[p]
                       == if p.0 in Keys(s) then multiset(cs)[Course(p.0, Number(p.1))] else 0 {
        var q := Course(p.0, Number(p.1));
        assert multiset(ValidCourses(cs, s))[p] == multiset(ValidCourses(init, s))[p] + multiset(tail)[p];
        assert multiset(cs)[q] == multiset(init)[q] + (if c == q then 1 else 0);
        assert multiset(tail)[p] == if p.0 in Keys(s) && c == q then 1 else 0;
      }
    }
  }

  /** show_chart has nothing to draw exactly when no stored course has both a grade of the scale and a numeric credit. */
  lemma {:induction false} ValidCoursesEmpty(cs: seq<Course>, s: Scale)
    ensures ValidCourses(cs, s) == [] <==> forall i | 0 <= i < |cs| :: cs[i].grade !in Keys(s) || !cs[i].credit.Number?
  {
    if cs != [] {
      var init, c := cs[..|cs| - 1], cs[|cs| - 1];
      ValidCoursesEmpty(init, s);
      assert forall i | 0 <= i < |init| :: cs[i] == init[i];
    }
  }

  /**
   * The per-grade credit totals show_chart draws, or None where it reports
   * that there is nothing to show. Each grade appears once, first drawn
   * first, with the sum of its courses' credits, and the slices add up to
   * the credits of all drawable courses.
   */
  method GradeCredits(cs: seq<Course>, s: Scale) returns (r: Option<Dict>)
    ensures r.None? <==> ValidCourses(cs, s) == []
    ensures r.Some? ==> r.value == Tally(ValidCourses(cs, s))
    ensures r.Some? ==> Sum(r.value) == Total(ValidCourses(cs, s)) && Keys(r.value) <= Keys(s)
  {
    var valid := ValidCourses(cs, s);
    if valid == [] {
      return None;
    }
    var d: Dict := [];
    for i := 0 to |valid|
      invariant d == Tally(valid[..i])
    {
      assert valid[..i + 1][..i] == valid[..i];
      d := Add(d, valid[i].0, valid[i].1);
    }
    assert valid[..|valid|] == valid;
    assert Keys(valid) <= Keys(s) by {
      forall k | k in Keys(valid) ensures k in Keys(s) {
        var i :| 0 <= i < |valid| && valid[i].0 == k;
      }
    }
    r := Some(d);
  }

  // ---------------------------------------------------------------- settings window

  /** One editable row of the settings window: the grade-name text and the GPA text. */
  datatype Entry = Entry(grade: string, gpa: string)

  datatype SettingsError = EmptyName | InvalidGpa(grade: string) | OutOfRange(grade: string) | NoGrades

  /** refresh_entries: one row per grade, highest GPA first, showing str(gpa). */
  function EntriesOf(s: Scale, show: real -> string): (es: seq<Entry>)
    ensures |es| == |s|
    ensures forall i | 0 <= i < |es| :: es[i] == Entry(ByGpa(s)[i].0, show(ByGpa(s)[i].1))
  {
    var sorted := ByGpa(s);
    seq(|sorted|, i requires 0 <= i < |sorted| => Entry(sorted[i].0, show(sorted[i].1)))
  }

  /** Each row shows a grade of the scale beside its own GPA. */
  lemma EntriesShowScale(s: Scale, show: real -> string)
    requires Distinct(s)
    ensures var es := EntriesOf(s, show);
      forall i | 0 <= i < |es| :: es[i].grade in Keys(s) && es[i].gpa == show(Get(s, es[i].grade))
  {
    var es := EntriesOf(s, show);
    var b := ByGpa(s);
    forall i | 0 <= i < |es| ensures es[i].grade in Keys(s) && es[i].gpa == show(Get(s, es[i].grade)) {
      assert b[i] in multiset(s);
      var a :| 0 <= a < |s| && s[a] == b[i];
      GetAt(s, a);
    }
  }

  /** Every grade of the scale has a row, and no grade has two. */
  lemma EntriesCoverScale(s: Scale, show: real -> string)
    requires Distinct(s)
    ensures var es := EntriesOf(s, show);
      && (forall k | k in Keys(s) :: exists i | 0 <= i < |es| :: es[i].grade == k)
      && (forall i, j | 0 <= i < j < |es| :: es[i].grade != es[j].grade)
  {
    var es := EntriesOf(s, show);
    var b := ByGpa(s);
    DistinctPerm(s, b);
    forall k | k in Keys(s) ensures exists i | 0 <= i < |es| :: es[i].grade == k {
      var a :| 0 <= a < |s| && s[a].0 == k;
      assert s[a] in multiset(b);
      var i :| 0 <= i < |b| && b[i] == s[a];
      assert es[i].grade == k;
    }
  }

  /** The rows are listed highest GPA first. */
  lemma EntriesDescend(s: Scale, show: real -> string)
    requires Distinct(s)
    ensures var es := EntriesOf(s, show);
      forall i, j | 0 <= i < j < |es| :: Get(s, es[j].grade) <= Get(s, es[i].grade)
  {
    var es := EntriesOf(s, show);
    var b := ByGpa(s);
    forall i, j | 0 <= i < j < |es| ensures Get(s, es[j].grade) <= Get(s, es[i].grade) {
      assert b[i] in multiset(s) && b[j] in multiset(s);
      var a :| 0 <= a < |s| && s[a] == b[i];
      var c :| 0 <= c < |s| && s[c] == b[j];
      GetAt(s, a);
      GetAt(s, c);
      assert InOrder(GpaKey(b[i]), GpaKey(b[j]), true);
    }
  }

  /** One row of save_settings: its upper-cased stripped name and its GPA, or why it is refused. */
  function CheckEntry(e: Entry, parse: string -> Option<real>): (r: Result<(string, real), SettingsError>)
    ensures r.Ok? ==> (r.value.0 == Upper(Strip(e.grade)) != [] && InRange(r.value.1)
                       && parse(Strip(e.gpa)) == Some(r.value.1))
    ensures Upper(Strip(e.grade)) == [] <==> r == Err(EmptyName)
    ensures Upper(Strip(e.grade)) != [] && parse(Strip(e.gpa)).None? ==> r == Err(InvalidGpa(Upper(Strip(e.grade))))
    ensures Upper(Strip(e.grade)) != [] && parse(Strip(e.gpa)).Some? && !InRange(parse(Strip(e.gpa)).value)
            ==> r == Err(OutOfRange(Upper(Strip(e.grade))))
    ensures Upper(Strip(e.grade)) != [] && parse(Strip(e.gpa)).Some? && InRange(parse(Strip(e.gpa)).value)
            ==> r == Ok((Upper(Strip(e.grade)), parse(Strip(e.gpa)).value))
  {
    var grade := Upper(Strip(e.grade));
    if grade == [] then Err(EmptyName)
    else match parse(Strip(e.gpa))
      case None => Err(InvalidGpa(grade))
      case Some(x) => if x < 0.0 || x > 4.0 then Err(OutOfRange(grade)) else Ok((grade, x))
  }

  /** The dict save_settings builds from the rows, in row order; the first refused row stops it. */
  function Collect(es: seq<Entry>, parse: string -> Option<real>): (r: Result<Scale, SettingsError>)
    ensures r.Ok? ==> Distinct(r.value) && ScaleInRange(r.value) && |r.value| <= |es|
  {
    if es == [] then Ok([])
    else
      match Collect(es[..|es| - 1], parse)
      case Err(e) => Err(e)
      case Ok(d) =>
        match CheckEntry(es[|es| - 1], parse)
        case Err(e) => Err(e)
        case Ok(p) =>
          PutDistinct(d, p.0, p.1);
          PutPlacement(d, p.0, p.1);
          PutKeys(d, p.0, p.1);
          var r := Put(d, p.0, p.1);
          assert ScaleInRange(r) by {
            forall i | 0 <= i < |r| ensures InRange(r[i].1) {
              GetAt(r, i);
              if r[i].0 != p.0 {
                assert r[i].0 in Keys(d) by {
                  assert r[i].0 in Keys(r);
                }
                var j :| 0 <= j < |d| && d[j].0 == r[i].0;
                GetAt(d, j);
              }
            }
          }
          Ok(r)
  }

  /** How one more row extends the dict save_settings builds. */
  lemma CollectStep(es: seq<Entry>, i: nat, parse: string -> Option<real>)
    requires i < |es|
    ensures Collect(es[..i + 1], parse) ==
      match Collect(es[..i], parse)
      case Err(e) => Err(e)
      case Ok(d) =>
        match CheckEntry(es[i], parse)
        case Err(e) => Err(e)
        case Ok(p) => Ok(Put(d, p.0, p.1))
  {
    assert es[..i + 1][..i] == es[..i];
    assert es[..i + 1][i] == es[i];
  }

  /** save_settings' verdict: the new scale, never empty, or the first problem. */
  function Validate(es: seq<Entry>, parse: string -> Option<real>): (r: Result<Scale, SettingsError>)
    ensures r.Ok? ==> r.value != [] && Distinct(r.value) && ScaleInRange(r.value)
    ensures es == [] ==> r == Err(NoGrades)
  {
    match Collect(es, parse)
    case Err(e) => Err(e)
    case Ok(d) => if d == [] then Err(NoGrades) else Ok(d)
  }

  /** When a name occurs again further down, its later GPA is the one saved. */
  lemma LaterEntryWins(es: seq<Entry>, e: Entry, parse: string -> Option<real>)
    requires Collect(es, parse).Ok? && CheckEntry(e, parse).Ok?
    ensures Validate(es + [e], parse).Ok?
    ensures Get(Validate(es + [e], parse).value, CheckEntry(e, parse).value.0) == CheckEntry(e, parse).value.1
    ensures Keys(Validate(es + [e], parse).value) == Keys(Collect(es, parse).value) + {CheckEntry(e, parse).value.0}
  {
    assert (es + [e])[..|es|] == es;
    var d, p := Collect(es, parse).value, CheckEntry(e, parse).value;
    PutKeys(d, p.0, p.1);
    assert Collect(es + [e], parse) == Ok(Put(d, p.0, p.1));
  }

  /** The settings window over its working copy of the scale. */
  class GradeSettingsWindow {
    var scale: Scale
    var entries: seq<Entry>
    const show: real -> string

    constructor (s: Scale, show: real -> string)
      ensures scale == s && entries == EntriesOf(s, show) && this.show == show
    {
      scale := s;
      this.show := show;
      entries := EntriesOf(s, show);
    }

    /** The user typing into the two boxes of row i (the rows are editable text). */
    method Edit(i: nat, grade: string, gpa: string)
      requires i < |entries|
      modifies this
      ensures entries == old(entries)[i := Entry(grade, gpa)] && scale == old(scale)
    {
      entries := entries[i := Entry(grade, gpa)];
    }

    /**
     * add_grade: an empty (or cancelled) name or GPA text does nothing; a
     * GPA that is not a number or outside 0.0 .. 4.0 is refused; otherwise
     * the upper-cased name (not stripped) gets that GPA, replacing any entry
     * it had, and the rows are rebuilt.
     */
    method AddGrade(name: string, gpaText: string, parse: string -> Option<real>) returns (r: Result<bool, SettingsError>)
      modifies this
      ensures name == "" || gpaText == "" ==> r == Ok(false) && scale == old(scale) && entries == old(entries)
      ensures name != "" && gpaText != "" && parse(gpaText).None? ==> r == Err(InvalidGpa(name))
      ensures name != "" && gpaText != "" && parse(gpaText).Some? && !InRange(parse(gpaText).value) ==> r == Err(OutOfRange(name))
      ensures r.Err? ==> scale == old(scale) && entries == old(entries)
      ensures r == Ok(true) <==> name != "" && gpaText != "" && parse(gpaText).Some? && InRange(parse(gpaText).value)
      ensures r == Ok(true) ==> scale == Put(old(scale), Upper(name), parse(gpaText).value) && entries == EntriesOf(scale, show)
    {
      if name == "" || gpaText == "" {
        return Ok(false);
      }
      var gpa := parse(gpaText);
      if gpa.None? {
        return Err(InvalidGpa(name));
      }
      if gpa.value < 0.0 || gpa.value > 4.0 {
        return Err(OutOfRange(name));
      }
      scale := Put(scale, Upper(name), gpa.value);
      entries := EntriesOf(scale, show);
      r := Ok(true);
    }

    /**
     * delete_grade for row i: refused while at most one row is left;
     * otherwise, once confirmed, the grade named in that row (stripped,
     * upper-cased) is removed if the scale has it, and the rows are rebuilt.
     */
    method DeleteGrade(i: nat, confirmed: bool) returns (refused: bool)
      requires i < |entries|
      modifies this
      ensures refused <==> |old(entries)| <= 1
      ensures refused || !confirmed ==> scale == old(scale) && entries == old(entries)
      ensures !refused && confirmed ==> (scale == Remove(old(scale), Upper(Strip(old(entries)[i].grade)))
                                         && entries == EntriesOf(scale, show))
    {
      if |entries| <= 1 {
        return true;
      }
      refused := false;
      var grade := Upper(Strip(entries[i].grade));
      if confirmed {
        if grade in Keys(scale) {
          scale := Remove(scale, grade);
        } else {
          RemoveKeys(scale, grade);
        }
        entries := EntriesOf(scale, show);
      }
    }

    /** Installs a scale and redraws the rows from it (refresh_entries). */
    method Rebuild(s: Scale)
      modifies this
      ensures scale == s && entries == EntriesOf(s, show)
    {
      scale := s;
      entries := EntriesOf(s, show);
    }

    /** reset_to_default: once confirmed, the working copy becomes the default scale. */
    method ResetToDefault(confirmed: bool)
      modifies this
      ensures confirmed ==> scale == DefaultScale && entries == EntriesOf(scale, show)
      ensures !confirmed ==> scale == old(scale) && entries == old(entries)
    {
      if confirmed {
        Rebuild(DefaultScale);
      }
    }

    /**
     * save_settings: reads the rows top to bottom and returns the scale
     * handed back to the application, or the first problem. The window's
     * own copy is not changed.
     */
    method SaveSettings(parse: string -> Option<real>) returns (r: Result<Scale, SettingsError>)
      ensures r == Validate(entries, parse)
    {
      var d: Scale := [];
      for i := 0 to |entries|
        invariant Collect(entries[..i], parse) == Ok(d)
      {
        CollectStep(entries, i, parse);
        var grade := Upper(Strip(entries[i].grade));
        var gpaText := Strip(entries[i].gpa);
        if grade == [] {
          PrefixError(entries, i + 1, parse);
          return Err(EmptyName);
        }
        var gpa := parse(gpaText);
        if gpa.None? {
          PrefixError(entries, i + 1, parse);
          return Err(InvalidGpa(grade));
        }
        if gpa.value < 0.0 || gpa.value > 4.0 {
          PrefixError(entries, i + 1, parse);
          return Err(OutOfRange(grade));
        }
        d := Put(d, grade, gpa.value);
      }
      assert entries[..|entries|] == entries;
      if d == [] {
        return Err(NoGrades);
      }
      r := Ok(d);
    }
  }

  /** Once a prefix of the rows is refused, the whole list is refused for the same reason. */
  lemma {:induction false} PrefixError(es: seq<Entry>, n: nat, parse: string -> Option<real>)
    requires n <= |es| && Collect(es[..n], parse).Err?
    ensures Validate(es, parse) == Collect(es[..n], parse)
    ensures Collect(es, parse) == Collect(es[..n], parse)
  {
    if n < |es| {
      assert es[..|es| - 1][..n] == es[..n];
      PrefixError(es[..|es| - 1], n, parse);
    } else {
      assert es[..n] == es;
    }
  }
}
