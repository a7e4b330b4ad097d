/**
 * The data-quality gate over the cleaned metrics table
 * (pipeline/quality/check_quality.py).
 *
 * The table is given as an optional frame: `None` when the parquet file does
 * not exist. A frame is its set of column names and its rows; a row maps
 * column names to cells, and a name the row does not map reads as a missing
 * value, as pandas fills it. The verdict is either a pass, a `SystemExit`
 * with its message, or the `TypeError` pandas raises when `metric_value`
 * holds text and is compared with 0.
 */
module Quality {
  import opened Wrappers

  datatype Cell = Missing | Num(value: real) | Str(text: string)

  datatype Frame = Frame(columns: set<string>, rows: seq<map<string, Cell>>)

  datatype Verdict = Passed | Exit(message: string) | ComparisonError

  function CellAt(row: map<string, Cell>, column: string): Cell
  {
    if column in row then row[column] else Missing
  }

  const RequiredColumns: set<string> := {"id", "source", "metric_value", "metric_time"}

  const NotFoundMessage := "Quality check failed: metrics_cleaned.parquet not found"
  const MissingPrefix := "Quality check failed: missing columns "
  const NullMessage := "Quality check failed: null values present"
  const NegativeMessage := "Quality check failed: negative metric_value detected"
  const RowsMessage := "Quality check failed: not enough rows"

  // ---------------------------------------------------------------------------
  // sorted(missing) and its printed form
  // ---------------------------------------------------------------------------

  /** Python's `<` on str: code-point lexicographic order. */
  predicate Below(a: string, b: string)
    decreases |a|
  {
    if |a| == 0 then |b| > 0
    else |b| > 0 && (a[0] < b[0] || (a[0] == b[0] && Below(a[1..], b[1..])))
  }

  predicate StrictlySorted(s: seq<string>)
  {
    forall i, j :: 0 <= i < j < |s| ==> Below(s[i], s[j])
  }

  /** The required names in ascending order. */
  const RequiredInOrder: seq<string> := ["id", "metric_time", "metric_value", "source"]

  /** The names of `names` that are in `keep`, in their order. */
  function Keep(names: seq<string>, keep: set<string>): seq<string>
  {
    if names == [] then []
    else if names[0] in keep then [names[0]] + Keep(names[1..], keep)
    else Keep(names[1..], keep)
  }

  /** `sorted(missing)` for a set of required names. */
  function SortedMissing(missing: set<string>): seq<string>
  {
    Keep(RequiredInOrder, missing)
  }

  /** Python's `repr` of a list of strings without quotes in them: `['a', 'b']`. */
  function ListRepr(names: seq<string>): string
  {
    "[" + Items(names) + "]"
  }

  function Items(names: seq<string>): string
  {
    if names == [] then ""
    else if |names| == 1 then "'" + names[0] + "'"
    else "'" + names[0] + "', " + Items(names[1..])
  }

  // ---------------------------------------------------------------------------
  // The checks
  // ---------------------------------------------------------------------------

  /** `df.isna().any().any()`: some cell of some column is missing. */
  predicate HasNull(f: Frame)
  {
    exists i, c :: 0 <= i < |f.rows| && c in f.columns && CellAt(f.rows[i], c).Missing?
  }

  /** Some `metric_value` is text, which makes `df["metric_value"] < 0` raise. */
  predicate HasTextMetric(f: Frame)
  {
    exists i :: 0 <= i < |f.rows| && CellAt(f.rows[i], "metric_value").Str?
  }

  /** `(df["metric_value"] < 0).any()` */
  predicate HasNegative(f: Frame)
  {
    exists i :: 0 <= i < |f.rows| && CellAt(f.rows[i], "metric_value").Num? &&
      CellAt(f.rows[i], "metric_value").value < 0.0
  }

  /** `df.empty`: the frame has no rows or no columns. */
  predicate IsEmpty(f: Frame)
  {
    |f.rows| == 0 || |f.columns| == 0
  }

  /** `main()`: the guards in source order; the first one that fires decides. */
  function Check(file: Option<Frame>): Verdict
  {
    match file
    case None => Exit(NotFoundMessage)
    case Some(f) =>
      var missing := RequiredColumns - f.columns;
      if missing != {} then Exit(MissingPrefix + ListRepr(SortedMissing(missing)))
      else if HasNull(f) then Exit(NullMessage)
      else if HasTextMetric(f) then ComparisonError
      else if HasNegative(f) then Exit(NegativeMessage)
      else if IsEmpty(f) || |f.rows| < 3 then Exit(RowsMessage)
      else Passed
  }

  // ---------------------------------------------------------------------------
  // Properties
  // ---------------------------------------------------------------------------

  /** Independent statement of a table the gate accepts. */
  predicate Acceptable(f: Frame)
  {
    RequiredColumns <= f.columns &&
    (forall i, c :: 0 <= i < |f.rows| && c in f.columns ==> !CellAt(f.rows[i], c).Missing?) &&
    (forall i :: 0 <= i < |f.rows| ==>
      CellAt(f.rows[i], "metric_value").Num? && CellAt(f.rows[i], "metric_value").value >= 0.0) &&
    |f.rows| >= 3
  }

  /** The gate passes exactly on an existing file whose table meets all five conditions. */
  lemma CheckPassesIff(file: Option<Frame>)
    ensures Check(file) == Passed <==> file.Some? && Acceptable(file.value)
  {
    if file.Some? {
      var f := file.value;
      if Acceptable(f) {
        assert !HasNull(f);
        assert !HasTextMetric(f);
        assert !HasNegative(f);
      }
      if Check(file) == Passed {
        assert RequiredColumns - f.columns == {};
        assert "metric_value" in RequiredColumns;
        forall c | c in RequiredColumns ensures c in f.columns {
          assert c !in RequiredColumns - f.columns;
        }
        forall i | 0 <= i < |f.rows|
          ensures CellAt(f.rows[i], "metric_value").Num? && CellAt(f.rows[i], "metric_value").value >= 0.0
        {
        }
      }
    }
  }

  /** A missing file is reported before anything else, and only a missing file gets that message. */
  lemma CheckFileFirst(file: Option<Frame>)
    ensures Check(file) == Exit(NotFoundMessage) <==> file.None?
  {
    if file.Some? {
      var f := file.value;
      var missing := RequiredColumns - f.columns;
      if missing != {} {
        assert (MissingPrefix + ListRepr(SortedMissing(missing)))[23] == 'i';
        assert NotFoundMessage[23] == 'e';
      }
    }
  }

  /**
   * With the file present, a required column that is absent is reported
   * first, by a message listing the absent required names in ascending order.
   */
  lemma CheckMissingColumns(f: Frame)
    requires !(RequiredColumns <= f.columns)
    ensures var names := SortedMissing(RequiredColumns - f.columns);
      Check(Some(f)) == Exit(MissingPrefix + ListRepr(names)) &&
      StrictlySorted(names) &&
      (forall n :: n in names <==> n in RequiredColumns && n !in f.columns)
  {
    var c :| c in RequiredColumns && c !in f.columns;
    assert c in RequiredColumns - f.columns;
    SortedMissingSpec(RequiredColumns - f.columns);
  }

  /** With every required column present, the null check fires exactly when some cell is missing. */
  lemma CheckNulls(f: Frame)
    requires RequiredColumns <= f.columns
    ensures Check(Some(f)) == Exit(NullMessage) <==> HasNull(f)
  {
  }

  /**
   * With columns present and no nulls, text in `metric_value` raises; with
   * numbers only, the negative check fires exactly when some value is below 0.
   */
  lemma CheckNegative(f: Frame)
    requires RequiredColumns <= f.columns && !HasNull(f)
    ensures Check(Some(f)) == ComparisonError <==> HasTextMetric(f)
    ensures !HasTextMetric(f) ==> (Check(Some(f)) == Exit(NegativeMessage) <==> HasNegative(f))
  {
  }

  /** The last guard fires exactly when the table has fewer than three rows. */
  lemma CheckRows(f: Frame)
    requires RequiredColumns <= f.columns && !HasNull(f) && !HasTextMetric(f) && !HasNegative(f)
    ensures Check(Some(f)) == Exit(RowsMessage) <==> |f.rows| < 3
  {
  }

  /** Once the required columns exist, `df.empty` adds nothing to `len(df) < 3`. */
  lemma EmptyIsRedundant(f: Frame)
    requires RequiredColumns <= f.columns
    ensures IsEmpty(f) || |f.rows| < 3 <==> |f.rows| < 3
  {
    assert "id" in f.columns;
  }

  // ---------------------------------------------------------------------------
  // sorted(missing) is Python's sorted
  // ---------------------------------------------------------------------------

  lemma {:induction false} BelowAsymmetric(a: string, b: string)
    ensures Below(a, b) ==> !Below(b, a)
    decreases |a|
  {
    if |a| > 0 && |b| > 0 && a[0] == b[0] {
      BelowAsymmetric(a[1..], b[1..]);
    }
  }

  /** Two names that agree up to position `k` and differ there are ordered by that character. */
  lemma {:induction false} BelowAt(a: string, b: string, k: nat)
    requires k < |a| && k < |b| && a[k] < b[k]
    requires forall i :: 0 <= i < k ==> a[i] == b[i]
    ensures Below(a, b)
    decreases k
  {
    if k > 0 {
      assert a[0] == b[0];
      BelowAt(a[1..], b[1..], k - 1);
    }
  }

  lemma RequiredInOrderSorted()
    ensures StrictlySorted(RequiredInOrder)
    ensures forall n :: n in RequiredInOrder <==> n in RequiredColumns
  {
    var s := RequiredInOrder;
    forall i, j | 0 <= i < j < |s| ensures Below(s[i], s[j]) {
      if i == 1 && j == 2 {
        assert s[i][7] == 't' && s[j][7] == 'v';
        BelowAt(s[i], s[j], 7);
      } else {
        assert s[i][0] < s[j][0];
        BelowAt(s[i], s[j], 0);
      }
    }
  }

  lemma {:induction false} KeepSpec(names: seq<string>, keep: set<string>)
    requires StrictlySorted(names)
    ensures StrictlySorted(Keep(names, keep))
    ensures forall n :: n in Keep(names, keep) <==> n in names && n in keep
  {
    if names != [] {
      var rest := names[1..];
      assert StrictlySorted(rest) by {
        forall i, j | 0 <= i < j < |rest| ensures Below(rest[i], rest[j]) {
          assert rest[i] == names[i + 1] && rest[j] == names[j + 1];
        }
      }
      KeepSpec(rest, keep);
      assert forall n :: n in names <==> n == names[0] || n in rest;
      if names[0] in keep {
        var r := Keep(names, keep);
        assert r == [names[0]] + Keep(rest, keep);
        forall i, j | 0 <= i < j < |r| ensures Below(r[i], r[j]) {
          if i == 0 {
            assert r[j] == Keep(rest, keep)[j - 1];
            assert r[j] in rest;
            var k :| 0 <= k < |rest| && rest[k] == r[j];
            assert names[k + 1] == r[j];
          }
        }
      }
    }
  }

  /**
   * The printed list is Python's `sorted(missing)`: strictly ascending and
   * holding exactly the missing names.
   */
  lemma SortedMissingSpec(missing: set<string>)
    requires missing <= RequiredColumns
    ensures StrictlySorted(SortedMissing(missing))
    ensures forall n :: n in SortedMissing(missing) <==> n in missing
  {
    RequiredInOrderSorted();
    KeepSpec(RequiredInOrder, missing);
  }

  lemma Member(s: seq<string>, i: int)
    requires 0 <= i < |s|
    ensures s[i] in s
  {
  }

  /** Two strictly sorted lists of the same names are equal, so the sorted order is unique. */
  lemma {:induction false} SortedUnique(a: seq<string>, b: seq<string>)
    requires StrictlySorted(a) && StrictlySorted(b)
    requires forall n :: n in a <==> n in b
    ensures a == b
    decreases |a|
  {
    if a == [] {
      if b != [] {
        Member(b, 0);
        assert false;
      }
    } else {
      assert a[0] in a;
      assert b != [];
      if a[0] != b[0] {
        assert b[0] in b;
        var i :| 0 <= i < |a| && a[i] == b[0];
        var j :| 0 <= j < |b| && b[j] == a[0];
        BelowAsymmetric(a[0], b[0]);
      }
      var ra, rb := a[1..], b[1..];
      forall n ensures n in ra <==> n in rb {
        if n in ra {
          var i :| 0 <= i < |ra| && ra[i] == n;
          BelowAsymmetric(a[0], n);
          assert Below(a[0], a[i + 1]);
          assert n != a[0];
          assert n in b;
        }
        if n in rb {
          var j :| 0 <= j < |rb| && rb[j] == n;
          BelowAsymmetric(b[0], n);
          assert Below(b[0], b[j + 1]);
          assert n != b[0];
          assert n in a;
        }
      }
      assert StrictlySorted(ra) by {
        forall i, j | 0 <= i < j < |ra| ensures Below(ra[i], ra[j]) {
          assert ra[i] == a[i + 1] && ra[j] == a[j + 1];
        }
      }
      assert StrictlySorted(rb) by {
        forall i, j | 0 <= i < j < |rb| ensures Below(rb[i], rb[j]) {
          assert rb[i] == b[i + 1] && rb[j] == b[j + 1];
        }
      }
      SortedUnique(ra, rb);
    }
  }

  /** The message's list is the only strictly ascending list of the missing names. */
  lemma MissingListIsSorted(missing: set<string>, other: seq<string>)
    requires missing <= RequiredColumns
    requires StrictlySorted(other) && forall n :: n in other <==> n in missing
    ensures SortedMissing(missing) == other
  {
    SortedMissingSpec(missing);
    SortedUnique(SortedMissing(missing), other);
  }
}
