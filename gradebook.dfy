// The grade book's roll-up of one student's assignments in one class: the per-unit table the
// pages show, and the weighted overall average. The database query and the current instant are
// parameters: `rows` is what the outer join of assignments and the student's submissions
// returned, `weights` the weight of every weighting row, `today` the current instant.

module AssignmentController {
  import opened PyText
  import opened Scoring

  /** The fields of an assignment the grade book reads; `weight` is the weight of the
      assignment's weighting, and due dates and `today` are instants on one ordered scale. */
  datatype Assignment = Assignment(id: int, name: string, dueDate: int, totalPoints: int,
                                   visible: bool, unitName: string, weight: int, classId: int)

  /** One row of the outer join: an assignment and the student's score, `None` when nothing
      was submitted. */
  datatype Row = Row(assignment: Assignment, submitted: Option<int>)

  /** The dictionary the table shows for one assignment. */
  datatype Entry = Entry(id: int, name: string, dueDate: int, score: Option<int>,
                         totalPoints: int, total: int, classId: int)

  // ---------------------------------------------------------------------------------------
  // assignments_scores_to_dict
  // ---------------------------------------------------------------------------------------

  /** The score shown for an assignment: the submitted score; 0 for missing work past its due
      date; nothing yet for missing work that is not yet due. */
  function ScoreOf(row: Row, today: int): (s: Option<int>)
    ensures row.submitted.Some? ==> s == row.submitted
    ensures row.submitted.None? ==> (s == Some(0) <==> row.assignment.dueDate < today)
    ensures row.submitted.None? ==> (s == None <==> today <= row.assignment.dueDate)
  {
    match row.submitted
    case Some(score) => Some(score)
    case None => if row.assignment.dueDate < today then Some(0) else None
  }

  function EntryOf(row: Row, today: int): Entry
  {
    var a := row.assignment;
    Entry(a.id, a.name, a.dueDate, ScoreOf(row, today), a.totalPoints, a.totalPoints, a.classId)
  }

  /** The unit names that occur in the rows, visible or not. */
  function UnitNames(rows: seq<Row>): set<string>
  {
    set row | row in rows :: row.assignment.unitName
  }

  /** Reference definition of one unit's list: the entries of that unit's visible assignments,
      in the order of the rows. */
  function UnitEntries(rows: seq<Row>, unit: string, today: int): (r: seq<Entry>)
    ensures forall e :: e in r ==>
              exists row :: row in rows && row.assignment.visible && row.assignment.unitName == unit && e == EntryOf(row, today)
    ensures forall row :: row in rows && row.assignment.visible && row.assignment.unitName == unit ==>
                          EntryOf(row, today) in r
  {
    if rows == [] then []
    else
      var prefix, row := rows[..|rows| - 1], rows[|rows| - 1];
      assert rows == prefix + [row];
      UnitEntries(prefix, unit, today)
        + (if row.assignment.visible && row.assignment.unitName == unit then [EntryOf(row, today)] else [])
  }

  /** The dictionary after the loop has handled `rows`: a key is created for each new unit
      name, and a visible assignment's entry is appended to its unit's list. */
  function ScoresDict(rows: seq<Row>, today: int): (m: map<string, seq<Entry>>)
    ensures m.Keys == UnitNames(rows)
  {
    if rows == [] then map[]
    else
      var prefix, row := rows[..|rows| - 1], rows[|rows| - 1];
      assert rows == prefix + [row];
      var unit := row.assignment.unitName;
      var m := ScoresDict(prefix, today);
      var m1 := if unit in m then m else m[unit := []];
      if row.assignment.visible then m1[unit := m1[unit] + [EntryOf(row, today)]] else m1
  }

  /** Each unit's list is exactly that unit's visible entries, in row order. */
  lemma {:induction false} DictContents(rows: seq<Row>, today: int)
    ensures forall unit :: unit in ScoresDict(rows, today) ==>
              ScoresDict(rows, today)[unit] == UnitEntries(rows, unit, today)
  {
    if rows != [] {
      var prefix, row := rows[..|rows| - 1], rows[|rows| - 1];
      DictContents(prefix, today);
      forall unit | unit in ScoresDict(rows, today)
        ensures ScoresDict(rows, today)[unit] == UnitEntries(rows, unit, today)
      {
        if unit !in ScoresDict(prefix, today) {
          AbsentUnit(prefix, unit, today);
        }
      }
    }
  }

  /** A unit that no row names has no entries. */
  lemma AbsentUnit(rows: seq<Row>, unit: string, today: int)
    requires unit !in UnitNames(rows)
    ensures UnitEntries(rows, unit, today) == []
  {
  }

  /** `assignments_scores_to_dict`. */
  method AssignmentsScoresToDict(rows: seq<Row>, today: int) returns (assignments: map<string, seq<Entry>>)
    ensures assignments == ScoresDict(rows, today)
  {
    assignments := map[];
    for i := 0 to |rows|
      invariant assignments == ScoresDict(rows[..i], today)
    {
      assert rows[..i + 1][..i] == rows[..i];
      var a := rows[i].assignment;
      if a.unitName !in assignments {
        assignments := assignments[a.unitName := []];
      }
      var score: Option<int>;
      match rows[i].submitted {
        case None =>
          if a.dueDate < today {
            score := Some(0);
          } else {
            score := None;
          }
        case Some(s) =>
          score := Some(s);
      }
      if a.visible {
        var entry := Entry(a.id, a.name, a.dueDate, score, a.totalPoints, a.totalPoints, a.classId);
        assignments := assignments[a.unitName := assignments[a.unitName] + [entry]];
      }
    }
    assert rows[..|rows|] == rows;
  }

  /** Every entry in the table belongs to a visible assignment of its unit, carries that
      assignment's id and shown score, and its `total` equals its `total_points`. */
  lemma EntryFacts(rows: seq<Row>, today: int, unit: string, e: Entry)
    requires unit in ScoresDict(rows, today) && e in ScoresDict(rows, today)[unit]
    ensures exists row :: row in rows && row.assignment.visible && row.assignment.unitName == unit &&
              e.id == row.assignment.id && e.score == ScoreOf(row, today) &&
              e.total == e.totalPoints == row.assignment.totalPoints
  {
    DictContents(rows, today);
  }

  /** A unit whose assignments are all hidden still gets a key, with an empty list. */
  lemma HiddenUnitIsEmpty(rows: seq<Row>, today: int, unit: string)
    requires exists row :: row in rows && row.assignment.unitName == unit
    requires forall row :: row in rows && row.assignment.unitName == unit ==> !row.assignment.visible
    ensures unit in ScoresDict(rows, today) && ScoresDict(rows, today)[unit] == []
  {
    DictContents(rows, today);
  }

  /** Every visible assignment shows up in its unit's list. */
  lemma VisibleShown(rows: seq<Row>, today: int, row: Row)
    requires row in rows && row.assignment.visible
    ensures row.assignment.unitName in ScoresDict(rows, today)
    ensures EntryOf(row, today) in ScoresDict(rows, today)[row.assignment.unitName]
  {
    DictContents(rows, today);
  }

  // ---------------------------------------------------------------------------------------
  // calc_overall_avg
  // ---------------------------------------------------------------------------------------

  /** A row puts a mark in a bucket when it was submitted or is missing past its due date. */
  predicate Counted(row: Row, today: int)
  {
    row.submitted.Some? || row.assignment.dueDate < today
  }

  /** A submitted score can be divided by the assignment's points. */
  predicate Divisible(row: Row)
  {
    row.submitted.Some? ==> row.assignment.totalPoints != 0
  }

  predicate AllDivisible(rows: seq<Row>)
  {
    forall k :: 0 <= k < |rows| ==> Divisible(rows[k])
  }

  /** A counted row whose weight has no bucket, or a submitted row worth zero points. */
  predicate Fails(row: Row, weights: seq<int>, today: int)
  {
    Counted(row, today) && (row.assignment.weight !in weights || !Divisible(row))
  }

  /** The mark a counted row adds: the share of the points earned, 0 for missing work. */
  function MarkOf(row: Row): real
    requires Divisible(row)
  {
    match row.submitted
    case Some(score) => score as real / row.assignment.totalPoints as real
    case None => 0.0
  }

  /** Reference definition of one bucket: the marks of the counted rows of that weight, in
      row order. */
  function Marks(rows: seq<Row>, weight: int, today: int): seq<real>
    requires AllDivisible(rows)
  {
    if rows == [] then []
    else
      var prefix, row := rows[..|rows| - 1], rows[|rows| - 1];
      assert AllDivisible(prefix) && Divisible(row) by {
        forall k | 0 <= k < |prefix| ensures Divisible(prefix[k]) {
          assert prefix[k] == rows[k];
        }
      }
      Marks(prefix, weight, today)
        + (if Counted(row, today) && row.assignment.weight == weight then [MarkOf(row)] else [])
  }

  /** `{w.weight: [] for w in weightings}`. */
  function EmptyBuckets(weights: seq<int>): map<int, seq<real>>
  {
    map w | w in weights :: []
  }

  /** The buckets after the loop has handled `rows`, or the exception it stopped at: a KeyError
      for a counted row whose weight has no bucket, a ZeroDivisionError for a submitted row
      worth zero points. */
  function Buckets(weights: seq<int>, rows: seq<Row>, today: int): (r: Result<map<int, seq<real>>>)
    ensures r.Raised? <==> exists k :: 0 <= k < |rows| && Fails(rows[k], weights, today)
    ensures r.Raised? && r.error == KeyError ==>
              exists k :: 0 <= k < |rows| && Counted(rows[k], today) && rows[k].assignment.weight !in weights
    ensures r.Raised? && r.error != KeyError ==>
              r.error == ZeroDivisionError && exists k :: 0 <= k < |rows| && Counted(rows[k], today) && !Divisible(rows[k])
    ensures r.Ok? ==> r.value.Keys == set w | w in weights
  {
    if rows == [] then Ok(EmptyBuckets(weights))
    else
      var prefix, row := rows[..|rows| - 1], rows[|rows| - 1];
      assert forall k :: 0 <= k < |prefix| ==> prefix[k] == rows[k];
      match Buckets(weights, prefix, today)
      case Raised(e) => Raised(e)
      case Ok(marks) =>
        var w := row.assignment.weight;
        if !Counted(row, today) then Ok(marks)
        else if w !in marks then Raised(KeyError)
        else if !Divisible(row) then Raised(ZeroDivisionError)
        else Ok(marks[w := marks[w] + [MarkOf(row)]])
  }

  /** When the loop finishes, each weight's bucket holds exactly that weight's marks. */
  lemma {:induction false} BucketContents(weights: seq<int>, rows: seq<Row>, today: int)
    requires Buckets(weights, rows, today).Ok?
    ensures AllDivisible(rows)
    ensures forall w :: w in Buckets(weights, rows, today).value ==>
              Buckets(weights, rows, today).value[w] == Marks(rows, w, today)
  {
    if rows != [] {
      var prefix, row := rows[..|rows| - 1], rows[|rows| - 1];
      assert forall k :: 0 <= k < |prefix| ==> prefix[k] == rows[k];
      BucketContents(weights, prefix, today);
      assert !Fails(row, weights, today);
    }
  }

  /** The weights in the order of their first occurrence, the order of the dictionary's keys. */
  function Distinct(weights: seq<int>): (r: seq<int>)
    ensures forall w :: w in r <==> w in weights
    ensures forall i, j :: 0 <= i < j < |r| ==> r[i] != r[j]
  {
    if weights == [] then []
    else
      var prefix, w := weights[..|weights| - 1], weights[|weights| - 1];
      assert weights == prefix + [w];
      var d := Distinct(prefix);
      if w in d then d else d + [w]
  }

  function Sum(xs: seq<real>): real
  {
    if xs == [] then 0.0 else xs[0] + Sum(xs[1..])
  }

  /** `sum(lst) / _safe_len(lst)`: an empty bucket counts as 0 instead of dividing by zero. */
  function Mean(xs: seq<real>): (m: real)
    ensures xs == [] ==> m == 0.0
  {
    Sum(xs) / (if |xs| == 0 then 1 else |xs|) as real
  }

  /** `sum(mean(marks[w]) * w for w in marks)`. */
  function WeightedTotal(keys: seq<int>, marks: map<int, seq<real>>): real
    requires forall i :: 0 <= i < |keys| ==> keys[i] in marks
  {
    if keys == [] then 0.0
    else
      Mean(marks[keys[0]]) * keys[0] as real + WeightedTotal(keys[1..], marks)
  }

  /** `calc_overall_avg` as a value: the weighted total rounded to two places, or the
      exception the bucket loop raised. */
  function OverallAvg(weights: seq<int>, rows: seq<Row>, today: int): (r: Result<real>)
    ensures r.Raised? <==> exists k :: 0 <= k < |rows| && Fails(rows[k], weights, today)
  {
    match Buckets(weights, rows, today)
    case Raised(e) => Raised(e)
    case Ok(marks) => Ok(RoundHundredths(WeightedTotal(Distinct(weights), marks)))
  }

  /** `calc_overall_avg`. */
  method CalcOverallAvg(weights: seq<int>, rows: seq<Row>, today: int) returns (r: Result<real>)
    ensures r == OverallAvg(weights, rows, today)
  {
    var marks := map w | w in weights :: [];
    for i := 0 to |rows|
      invariant Buckets(weights, rows[..i], today) == Ok(marks)
    {
      assert rows[..i + 1][..i] == rows[..i];
      var row := rows[i];
      var a := row.assignment;
      match row.submitted {
        case Some(score) =>
          if a.weight !in marks {
            assert Buckets(weights, rows[..i + 1], today) == Raised(KeyError);
            BucketsStop(weights, rows, i + 1, today);
            return Raised(KeyError);
          }
          if a.totalPoints == 0 {
            assert Buckets(weights, rows[..i + 1], today) == Raised(ZeroDivisionError);
            BucketsStop(weights, rows, i + 1, today);
            return Raised(ZeroDivisionError);
          }
          marks := marks[a.weight := marks[a.weight] + [score as real / a.totalPoints as real]];
        case None =>
          if a.dueDate < today {
            if a.weight !in marks {
              assert Buckets(weights, rows[..i + 1], today) == Raised(KeyError);
              BucketsStop(weights, rows, i + 1, today);
              return Raised(KeyError);
            }
            marks := marks[a.weight := marks[a.weight] + [0.0]];
          }
      }
    }
    assert rows[..|rows|] == rows;
    r := Ok(RoundHundredths(WeightedTotal(Distinct(weights), marks)));
  }

  /** Once the loop has raised, the later rows do not change the outcome. */
  lemma {:induction false} BucketsStop(weights: seq<int>, rows: seq<Row>, n: nat, today: int)
    requires n <= |rows| && Buckets(weights, rows[..n], today).Raised?
    ensures Buckets(weights, rows, today) == Buckets(weights, rows[..n], today)
    decreases |rows| - n
  {
    if n < |rows| {
      assert rows[..n + 1][..n] == rows[..n];
      BucketsStop(weights, rows, n + 1, today);
    } else {
      assert rows[..n] == rows;
    }
  }

  /** An unsubmitted assignment that is not yet due, wherever it sits among the rows, changes
      neither the buckets nor the average. */
  lemma NotDueIgnored(weights: seq<int>, before: seq<Row>, row: Row, after: seq<Row>, today: int)
    requires !Counted(row, today)
    ensures OverallAvg(weights, before + [row] + after, today) == OverallAvg(weights, before + after, today)
  {
    NotDueSkipped(weights, before, row, after, today);
  }

  /** The loop passes over an unsubmitted assignment that is not yet due. */
  lemma {:induction false} NotDueSkipped(weights: seq<int>, before: seq<Row>, row: Row, after: seq<Row>, today: int)
    requires !Counted(row, today)
    ensures Buckets(weights, before + [row] + after, today) == Buckets(weights, before + after, today)
  {
    if after == [] {
      assert before + [row] + after == before + [row];
      assert (before + [row])[..|before|] == before;
      assert before + after == before;
    } else {
      var rest, last := after[..|after| - 1], after[|after| - 1];
      NotDueSkipped(weights, before, row, rest, today);
      assert (before + [row] + after)[..|before + [row] + after| - 1] == before + [row] + rest;
      assert (before + after)[..|before + after| - 1] == before + rest;
    }
  }

  /** The table shows a score exactly for the assignments the average counts, and the mark the
      average uses is that score as a share of the assignment's points. */
  lemma ScoreAgrees(row: Row, today: int)
    requires Divisible(row)
    ensures Counted(row, today) <==> ScoreOf(row, today).Some?
    ensures Counted(row, today) ==> MarkOf(row) * row.assignment.totalPoints as real == ScoreOf(row, today).value as real
  {
    if row.submitted.Some? {
      var tp := row.assignment.totalPoints as real;
      assert row.submitted.value as real / tp * tp == row.submitted.value as real;
    }
  }

  lemma {:induction false} SumBounds(xs: seq<real>)
    requires forall k :: 0 <= k < |xs| ==> 0.0 <= xs[k] <= 1.0
    ensures 0.0 <= Sum(xs) <= |xs| as real
  {
    if xs != [] {
      SumBounds(xs[1..]);
    }
  }

  /** A bucket of shares between 0 and 1 has a mean between 0 and 1. */
  lemma MeanInUnit(xs: seq<real>)
    requires forall k :: 0 <= k < |xs| ==> 0.0 <= xs[k] <= 1.0
    ensures 0.0 <= Mean(xs) <= 1.0
  {
    SumBounds(xs);
    if xs != [] {
      var n := |xs| as real;
      assert Mean(xs) * n == Sum(xs);
    }
  }

  /** A score between 0 and the points available. */
  predicate InRange(row: Row)
  {
    row.submitted.Some? ==> 0 <= row.submitted.value <= row.assignment.totalPoints
  }

  lemma {:induction false} MarksInUnit(rows: seq<Row>, weight: int, today: int)
    requires AllDivisible(rows)
    requires forall k :: 0 <= k < |rows| ==> InRange(rows[k])
    ensures forall k :: 0 <= k < |Marks(rows, weight, today)| ==> 0.0 <= Marks(rows, weight, today)[k] <= 1.0
  {
    if rows != [] {
      var prefix, row := rows[..|rows| - 1], rows[|rows| - 1];
      assert forall k :: 0 <= k < |prefix| ==> prefix[k] == rows[k];
      MarksInUnit(prefix, weight, today);
      assert InRange(row) && Divisible(row);
      if row.submitted.Some? {
        var sc, tp := row.submitted.value as real, row.assignment.totalPoints as real;
        assert 0.0 < tp;
        assert sc / tp * tp == sc;
        assert 0.0 <= MarkOf(row) <= 1.0;
      }
    }
  }

  function SumInts(keys: seq<int>): int
  {
    if keys == [] then 0 else keys[0] + SumInts(keys[1..])
  }

  lemma {:induction false} WeightedTotalBounds(keys: seq<int>, marks: map<int, seq<real>>)
    requires forall i :: 0 <= i < |keys| ==> keys[i] in marks && 0 <= keys[i]
    requires forall i :: 0 <= i < |keys| ==> 0.0 <= Mean(marks[keys[i]]) <= 1.0
    ensures 0.0 <= WeightedTotal(keys, marks) <= SumInts(keys) as real
  {
    if keys != [] {
      WeightedTotalBounds(keys[1..], marks);
      var m, w := Mean(marks[keys[0]]), keys[0] as real;
      assert 0.0 <= m * w <= w;
    }
  }

  /** Rounding to two places keeps a total between 0 and a whole number between those bounds. */
  lemma {:induction false} RoundedWithin(total: real, top: int)
    requires 0.0 <= total <= top as real
    ensures 0.0 <= RoundHundredths(total) <= top as real
  {
    RoundHundredthsMonotone(0.0, total);
    RoundHundredthsMonotone(total, top as real);
    RoundHundredthsExact(0);
    RoundHundredthsExact(top * 100);
    assert (top * 100) as real / 100.0 == top as real;
  }

  /** With every score within its points, each bucket's mean lies between 0 and 1. */
  lemma {:induction false} BucketMeans(weights: seq<int>, rows: seq<Row>, today: int)
    requires Buckets(weights, rows, today).Ok?
    requires forall k :: 0 <= k < |rows| ==> InRange(rows[k])
    ensures forall w :: w in Buckets(weights, rows, today).value ==>
              0.0 <= Mean(Buckets(weights, rows, today).value[w]) <= 1.0
  {
    var marks := Buckets(weights, rows, today).value;
    BucketContents(weights, rows, today);
    forall w | w in marks
      ensures 0.0 <= Mean(marks[w]) <= 1.0
    {
      MarksInUnit(rows, w, today);
      MeanInUnit(marks[w]);
    }
  }

  /** With non-negative weights and every score within its assignment's points, the average
      lies between 0 and the sum of the distinct weights. */
  lemma {:induction false} AverageBounds(weights: seq<int>, rows: seq<Row>, today: int)
    requires OverallAvg(weights, rows, today).Ok?
    requires forall k :: 0 <= k < |weights| ==> 0 <= weights[k]
    requires forall k :: 0 <= k < |rows| ==> InRange(rows[k])
    ensures 0.0 <= OverallAvg(weights, rows, today).value <= SumInts(Distinct(weights)) as real
  {
    var marks := Buckets(weights, rows, today).value;
    var keys := Distinct(weights);
    BucketMeans(weights, rows, today);
    assert forall i :: 0 <= i < |keys| ==> keys[i] in weights;
    WeightedTotalBounds(keys, marks);
    RoundedWithin(WeightedTotal(keys, marks), SumInts(keys));
  }
}
