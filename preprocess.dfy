/**
 * The `preprocess` helper nested in the monitoring script's `main`: derive
 * the trip duration in minutes, keep trips of 1 to 60 minutes, project onto
 * the allow-listed features that are present, and drop rows with nulls.
 * Timestamps are held as seconds; a null timestamp (NaT) is a None cell.
 */
module Preprocess {
  import opened Wrappers
  import opened Frames

  const Pickup: string := "lpep_pickup_datetime"
  const Dropoff: string := "lpep_dropoff_datetime"
  const Duration: string := "duration"

  /** The feature allow-list, in the order the output columns take. */
  const AllowList: seq<string> := ["trip_distance", "duration", "fare_amount", "tip_amount", "total_amount"]

  /** Accessing a timestamp column the frame does not have (an AttributeError in pandas). */
  datatype PreprocessError = MissingColumn(name: string)

  /** Trip duration in minutes; null when either timestamp is null. */
  function DurationMinutes(pickup: Option<real>, dropoff: Option<real>): (d: Option<real>)
    ensures d.Some? <==> pickup.Some? && dropoff.Some?
    ensures d.Some? ==> d.value * 60.0 == dropoff.value - pickup.value
  {
    if pickup.Some? && dropoff.Some? then Some((dropoff.value - pickup.value) / 60.0) else None
  }

  /** The duration filter, both bounds inclusive. */
  predicate InTripRange(minutes: real)
  {
    1.0 <= minutes <= 60.0
  }

  /** In seconds, the filter keeps trips of 60 to 3600 seconds, both inclusive. */
  lemma TripRangeInSeconds(pickup: real, dropoff: real)
    ensures InTripRange(DurationMinutes(Some(pickup), Some(dropoff)).value) <==> 60.0 <= dropoff - pickup <= 3600.0
  {
  }

  /** `df['duration'] = ...` on one row: the cell is added, or overwritten when the column exists. */
  function WithDurationRow(row: Row): (r: Row)
    requires Pickup in row && Dropoff in row
    ensures r.Keys == row.Keys + {Duration}
    ensures r[Duration] == DurationMinutes(row[Pickup], row[Dropoff])
    ensures forall k :: k in row && k != Duration ==> r[k] == row[k]
  {
    row[Duration := DurationMinutes(row[Pickup], row[Dropoff])]
  }

  /** The header after `df['duration'] = ...`: a float column in place, or appended at the end. */
  function WithDurationColumns(cols: seq<Column>): (r: seq<Column>)
    ensures NameSet(r) == NameSet(cols) + {Duration}
    ensures Distinct(Names(cols)) ==> Distinct(Names(r))
    ensures forall i :: 0 <= i < |r| && r[i].name == Duration ==> r[i].numeric
    ensures Duration in NameSet(cols) ==>
              |r| == |cols| && forall i :: 0 <= i < |cols| ==> r[i] == (if cols[i].name == Duration then Column(Duration, true) else cols[i])
    ensures Duration !in NameSet(cols) ==> r == cols + [Column(Duration, true)]
    ensures forall c :: c in r && c.name != Duration ==> c in cols
  {
    if Duration in NameSet(cols) then
      var r := seq(|cols|, i requires 0 <= i < |cols| =>
                 if cols[i].name == Duration then Column(Duration, true) else cols[i]);
      assert Names(r) == Names(cols);
      r
    else
      var r := cols + [Column(Duration, true)];
      assert Names(r) == Names(cols) + [Duration];
      assert forall i :: 0 <= i < |cols| ==> cols[i].name == Names(cols)[i];
      r
  }

  function WithDuration(f: Frame): (g: Frame)
    requires WellFormed(f) && Pickup in NameSet(f.columns) && Dropoff in NameSet(f.columns)
    ensures WellFormed(g) && |g.rows| == |f.rows|
    ensures forall i :: 0 <= i < |f.rows| ==> g.rows[i] == WithDurationRow(f.rows[i])
  {
    Frame(WithDurationColumns(f.columns),
          seq(|f.rows|, i requires 0 <= i < |f.rows| => WithDurationRow(f.rows[i])))
  }

  predicate DurationInRange(row: Row)
  {
    Duration in row && row[Duration].Some? && InTripRange(row[Duration].value)
  }

  /** `df[(df.duration >= 1) & (df.duration <= 60)]`: a null duration compares false and is dropped. */
  function FilterByDuration(rows: seq<Row>): (r: seq<Row>)
    ensures |r| <= |rows|
    ensures forall x :: x in r ==> x in rows && DurationInRange(x)
    ensures forall i :: 0 <= i < |rows| && DurationInRange(rows[i]) ==> rows[i] in r
  {
    if rows == [] then []
    else if DurationInRange(rows[0]) then [rows[0]] + FilterByDuration(rows[1..])
    else FilterByDuration(rows[1..])
  }

  /** `[col for col in numeric_features if col in df.columns]`. */
  function AvailableFeatures(cols: seq<Column>): (r: seq<string>)
    ensures forall x :: x in r <==> x in AllowList && x in NameSet(cols)
    ensures Distinct(r)
    ensures r == KeepPresent(AllowList, set x | x in r)
  {
    AllowListDistinct();
    KeepPresentDistinct(AllowList, NameSet(cols));
    KeepPresentSelf(AllowList, NameSet(cols));
    KeepPresent(AllowList, NameSet(cols))
  }

  /** The header of the column called `name`. */
  function FindColumn(cols: seq<Column>, name: string): (c: Column)
    requires name in NameSet(cols)
    ensures c in cols && c.name == name
  {
    if cols[0].name == name then cols[0]
    else
      assert name in NameSet(cols[1..]) by {
        var i :| 0 <= i < |cols| && Names(cols)[i] == name;
        assert Names(cols[1..])[i - 1] == name;
      }
      FindColumn(cols[1..], name)
  }

  /** The header of `df[names]`. */
  function SelectColumns(cols: seq<Column>, names: seq<string>): (r: seq<Column>)
    requires forall x :: x in names ==> x in NameSet(cols)
    ensures Names(r) == names
    ensures forall i :: 0 <= i < |r| ==> r[i] in cols
  {
    seq(|names|, i requires 0 <= i < |names| => FindColumn(cols, names[i]))
  }

  ghost predicate HasAll(row: Row, features: seq<string>)
  {
    forall k :: k in features ==> k in row
  }

  /** One row of `df[features]`. */
  function ProjectRow(row: Row, features: seq<string>): (r: Row)
    requires HasAll(row, features)
    ensures r.Keys == set k | k in features
    ensures forall k :: k in r ==> r[k] == row[k]
  {
    map k | k in features :: row[k]
  }

  function ProjectRows(rows: seq<Row>, features: seq<string>): (r: seq<Row>)
    requires forall i :: 0 <= i < |rows| ==> HasAll(rows[i], features)
    ensures |r| == |rows|
    ensures forall i :: 0 <= i < |r| ==> r[i] == ProjectRow(rows[i], features)
  {
    if rows == [] then [] else [ProjectRow(rows[0], features)] + ProjectRows(rows[1..], features)
  }

  predicate NoNulls(row: Row, features: seq<string>)
  {
    forall k :: k in features ==> k in row && row[k].Some?
  }

  /** `.dropna()` on the projected frame. */
  function DropNulls(rows: seq<Row>, features: seq<string>): (r: seq<Row>)
    ensures |r| <= |rows|
    ensures forall x :: x in r ==> x in rows && NoNulls(x, features)
    ensures forall i :: 0 <= i < |rows| && NoNulls(rows[i], features) ==> rows[i] in r
  {
    if rows == [] then []
    else if NoNulls(rows[0], features) then [rows[0]] + DropNulls(rows[1..], features)
    else DropNulls(rows[1..], features)
  }

  /** The duration filter keeps input order: it filters each part of a concatenation on its own. */
  lemma {:induction false} FilterByDurationConcat(a: seq<Row>, b: seq<Row>)
    ensures FilterByDuration(a + b) == FilterByDuration(a) + FilterByDuration(b)
  {
    if a == [] {
      assert a + b == b;
    } else {
      var ab := a + b;
      assert ab[0] == a[0] && ab[1..] == a[1..] + b;
      FilterByDurationConcat(a[1..], b);
    }
  }

  /** `dropna` keeps input order: it filters each part of a concatenation on its own. */
  lemma {:induction false} DropNullsConcat(a: seq<Row>, b: seq<Row>, features: seq<string>)
    ensures DropNulls(a + b, features) == DropNulls(a, features) + DropNulls(b, features)
  {
    if a == [] {
      assert a + b == b;
    } else {
      var ab := a + b;
      assert ab[0] == a[0] && ab[1..] == a[1..] + b;
      DropNullsConcat(a[1..], b, features);
    }
  }

  /** The columns `preprocess` returns: the allow-listed names present once `duration` is added. */
  function Features(f: Frame): seq<string>
  {
    KeepPresent(AllowList, NameSet(f.columns) + {Duration})
  }

  /** Filter, projection and `dropna` applied to a frame that already has its duration column. */
  function CleanFrame(g: Frame): (out: Frame)
    requires WellFormed(g)
    ensures Names(out.columns) == AvailableFeatures(g.columns)
    ensures forall i :: 0 <= i < |out.columns| ==> out.columns[i] in g.columns
    ensures |out.rows| <= |g.rows|
  {
    var kept := FilterByDuration(g.rows);
    var features := AvailableFeatures(g.columns);
    KeptRowsHaveFeatures(g, kept);
    Frame(SelectColumns(g.columns, features), DropNulls(ProjectRows(kept, features), features))
  }

  lemma KeptRowsHaveFeatures(g: Frame, kept: seq<Row>)
    requires WellFormed(g)
    requires forall x :: x in kept ==> x in g.rows
    ensures forall i :: 0 <= i < |kept| ==> HasAll(kept[i], AvailableFeatures(g.columns))
  {
    forall i | 0 <= i < |kept| ensures HasAll(kept[i], AvailableFeatures(g.columns)) {
      assert kept[i] in g.rows;
    }
  }

  lemma AllowListDistinct()
    ensures Distinct(AllowList)
  {
    forall i, j | 0 <= i < j < |AllowList| ensures AllowList[i] != AllowList[j] {
      assert AllowList[i][|AllowList[i]| - 1] != AllowList[j][|AllowList[j]| - 1]
          || AllowList[i][0] != AllowList[j][0]
          || |AllowList[i]| != |AllowList[j]|;
    }
  }

  lemma CleanedRow(kept: seq<Row>, features: seq<string>, x: Row)
    requires forall i :: 0 <= i < |kept| ==> HasAll(kept[i], features) && DurationInRange(kept[i])
    requires Duration in features
    requires x in DropNulls(ProjectRows(kept, features), features)
    ensures x.Keys == set k | k in features
    ensures NoNulls(x, features) && DurationInRange(x)
  {
    var projected := ProjectRows(kept, features);
    var j :| 0 <= j < |projected| && projected[j] == x;
    assert x == ProjectRow(kept[j], features);
    assert x[Duration] == kept[j][Duration];
  }

  lemma CleanFrameRows(g: Frame, i: nat)
    requires WellFormed(g) && Duration in NameSet(g.columns) && i < |CleanFrame(g).rows|
    ensures CleanFrame(g).rows[i].Keys == set k | k in AvailableFeatures(g.columns)
    ensures NoNulls(CleanFrame(g).rows[i], AvailableFeatures(g.columns))
    ensures DurationInRange(CleanFrame(g).rows[i])
  {
    var kept := FilterByDuration(g.rows);
    var features := AvailableFeatures(g.columns);
    KeptRowsHaveFeatures(g, kept);
    assert AllowList[1] == Duration;
    assert Duration in features;
    assert forall i :: 0 <= i < |kept| ==> DurationInRange(kept[i]) by {
      forall i | 0 <= i < |kept| ensures DurationInRange(kept[i]) {
        assert kept[i] in kept;
      }
    }
    CleanedRow(kept, features, CleanFrame(g).rows[i]);
  }

  lemma CleanFrameValid(g: Frame)
    requires WellFormed(g) && Duration in NameSet(g.columns)
    ensures WellFormed(CleanFrame(g)) && Complete(CleanFrame(g))
    ensures forall i :: 0 <= i < |CleanFrame(g).rows| ==> DurationInRange(CleanFrame(g).rows[i])
  {
    var out := CleanFrame(g);
    AllowListDistinct();
    KeepPresentDistinct(AllowList, NameSet(g.columns));
    forall i | 0 <= i < |out.rows|
      ensures out.rows[i].Keys == NameSet(out.columns)
      ensures NoNulls(out.rows[i], AvailableFeatures(g.columns))
      ensures DurationInRange(out.rows[i])
    {
      CleanFrameRows(g, i);
    }
  }

  /** The frame has both timestamp columns the duration is derived from. */
  predicate HasTimestamps(f: Frame)
  {
    Dropoff in NameSet(f.columns) && Pickup in NameSet(f.columns)
  }

  /** The whole transform; the first missing timestamp column raises. */
  function PreprocessFrame(f: Frame): (r: Result<Frame, PreprocessError>)
    requires WellFormed(f)
    ensures r.Failure? <==> !HasTimestamps(f)
    ensures r.Failure? ==> r.error == MissingColumn(if Dropoff !in NameSet(f.columns) then Dropoff else Pickup)
    ensures r.Success? ==> WellFormed(r.value) && Complete(r.value)
    ensures r.Success? ==> Names(r.value.columns) == Features(f)
    ensures r.Success? ==> |r.value.rows| <= |f.rows|
    ensures r.Success? ==> forall i :: 0 <= i < |r.value.rows| ==> DurationInRange(r.value.rows[i])
    ensures r.Success? ==> Duration in NumericNames(r.value.columns)
    ensures r.Success? ==> forall i :: 0 <= i < |r.value.columns| && r.value.columns[i].name != Duration ==> r.value.columns[i] in f.columns
  {
    if Dropoff !in NameSet(f.columns) then Failure(MissingColumn(Dropoff))
    else if Pickup !in NameSet(f.columns) then Failure(MissingColumn(Pickup))
    else
      var g := WithDuration(f);
      var out := CleanFrame(g);
      CleanFrameValid(g);
      var k :| 0 <= k < |out.columns| && Names(out.columns)[k] == Duration;
      assert out.columns[k] in g.columns;
      Success(out)
  }

  /**
   * Which input rows `preprocess` keeps, stated on the input row: both
   * timestamps give a duration of 1 to 60 minutes, and no feature other than
   * the derived duration is null.
   */
  predicate Keeps(row: Row, features: seq<string>)
  {
    && Pickup in row && Dropoff in row
    && var d := DurationMinutes(row[Pickup], row[Dropoff]);
    && d.Some? && InTripRange(d.value)
    && forall k :: k in features && k != Duration ==> k in row && row[k].Some?
  }

  /** The indices j, j+1, ... of the rows that `Keeps` holds of, ascending. */
  function KeptFrom(rows: seq<Row>, features: seq<string>, j: nat): (k: seq<nat>)
    requires j <= |rows|
    ensures forall i :: 0 <= i < |k| ==> j <= k[i] < |rows|
    ensures forall a, b :: 0 <= a < b < |k| ==> k[a] < k[b]
    ensures forall m :: j <= m < |rows| ==> (m in k <==> Keeps(rows[m], features))
    decreases |rows| - j
  {
    if j == |rows| then []
    else if Keeps(rows[j], features) then [j] + KeptFrom(rows, features, j + 1)
    else KeptFrom(rows, features, j + 1)
  }

  function KeptIndices(rows: seq<Row>, features: seq<string>): seq<nat>
  {
    KeptFrom(rows, features, 0)
  }

  /** The three steps after the duration is derived. */
  function Chain(rows: seq<Row>, features: seq<string>): seq<Row>
    requires forall i :: 0 <= i < |rows| ==> HasAll(rows[i], features)
  {
    var kept := FilterByDuration(rows);
    assert forall i :: 0 <= i < |kept| ==> HasAll(kept[i], features) by {
      forall i | 0 <= i < |kept| ensures HasAll(kept[i], features) {
        assert kept[i] in rows;
      }
    }
    DropNulls(ProjectRows(kept, features), features)
  }

  lemma ChainStep(rows: seq<Row>, features: seq<string>)
    requires rows != []
    requires forall i :: 0 <= i < |rows| ==> HasAll(rows[i], features)
    ensures Chain(rows, features)
         == (if DurationInRange(rows[0]) && NoNulls(rows[0], features) then [ProjectRow(rows[0], features)] else [])
            + Chain(rows[1..], features)
  {
    var tail := rows[1..];
    assert forall i :: 0 <= i < |tail| ==> HasAll(tail[i], features) by {
      forall i | 0 <= i < |tail| ensures HasAll(tail[i], features) {
        assert tail[i] == rows[i + 1];
      }
    }
    var p := ProjectRow(rows[0], features);
    assert NoNulls(p, features) <==> NoNulls(rows[0], features);
    if DurationInRange(rows[0]) {
      var kept := FilterByDuration(rows);
      assert kept == [rows[0]] + FilterByDuration(tail);
      assert kept[1..] == FilterByDuration(tail);
      assert forall i :: 0 <= i < |kept| ==> HasAll(kept[i], features) by {
        forall i | 0 <= i < |kept| ensures HasAll(kept[i], features) {
          assert kept[i] in rows;
        }
      }
      var projected := ProjectRows(kept, features);
      assert projected[0] == p;
      assert projected[1..] == ProjectRows(FilterByDuration(tail), features);
    }
  }

  lemma KeepsAugmented(row: Row, features: seq<string>)
    requires Pickup in row && Dropoff in row && Duration in features
    ensures Keeps(row, features) <==> DurationInRange(WithDurationRow(row)) && NoNulls(WithDurationRow(row), features)
  {
  }

  /** One step of the chain on the augmented rows from position `j`, decided on the raw row. */
  lemma ChainHead(raw: seq<Row>, aug: seq<Row>, features: seq<string>, j: nat)
    requires j < |raw| == |aug| && Duration in features
    requires Pickup in raw[j] && Dropoff in raw[j] && aug[j] == WithDurationRow(raw[j])
    requires forall i :: 0 <= i < |aug| ==> HasAll(aug[i], features)
    ensures forall i :: 0 <= i < |aug[j..]| ==> HasAll(aug[j..][i], features)
    ensures var tail := aug[j + 1..]; forall i :: 0 <= i < |tail| ==> HasAll(tail[i], features)
    ensures Chain(aug[j..], features)
         == (if Keeps(raw[j], features) then [ProjectRow(aug[j], features)] else []) + Chain(aug[j + 1..], features)
  {
    var rows := aug[j..];
    assert forall i :: 0 <= i < |rows| ==> rows[i] == aug[j + i];
    assert rows[1..] == aug[j + 1..];
    ChainStep(rows, features);
    KeepsAugmented(raw[j], features);
  }

  /** Each `c[i]` is the projection of the augmented row at index `k[i]`. */
  ghost predicate ProjectsAt(c: seq<Row>, k: seq<nat>, aug: seq<Row>, features: seq<string>)
    requires forall i :: 0 <= i < |aug| ==> HasAll(aug[i], features)
  {
    |c| == |k| && forall i :: 0 <= i < |c| ==> k[i] < |aug| && c[i] == ProjectRow(aug[k[i]], features)
  }

  lemma ProjectsAtCons(c: seq<Row>, k: seq<nat>, aug: seq<Row>, features: seq<string>, j: nat)
    requires forall i :: 0 <= i < |aug| ==> HasAll(aug[i], features)
    requires j < |aug| && ProjectsAt(c, k, aug, features)
    ensures ProjectsAt([ProjectRow(aug[j], features)] + c, [j] + k, aug, features)
  {
    var c2, k2 := [ProjectRow(aug[j], features)] + c, [j] + k;
    forall i | 0 <= i < |c2| ensures k2[i] < |aug| && c2[i] == ProjectRow(aug[k2[i]], features) {
      if i > 0 {
        assert c2[i] == c[i - 1] && k2[i] == k[i - 1];
      }
    }
  }

  lemma {:induction false} ChainFrom(raw: seq<Row>, aug: seq<Row>, features: seq<string>, j: nat)
    requires j <= |raw| == |aug| && Duration in features
    requires forall i :: 0 <= i < |raw| ==> Pickup in raw[i] && Dropoff in raw[i] && aug[i] == WithDurationRow(raw[i])
    requires forall i :: 0 <= i < |aug| ==> HasAll(aug[i], features)
    ensures forall i :: 0 <= i < |aug[j..]| ==> HasAll(aug[j..][i], features)
    ensures ProjectsAt(Chain(aug[j..], features), KeptFrom(raw, features, j), aug, features)
    decreases |raw| - j
  {
    if j < |raw| {
      ChainFrom(raw, aug, features, j + 1);
      ChainHead(raw, aug, features, j);
      var c', k' := Chain(aug[j + 1..], features), KeptFrom(raw, features, j + 1);
      if Keeps(raw[j], features) {
        ProjectsAtCons(c', k', aug, features, j);
        assert KeptFrom(raw, features, j) == [j] + k';
      } else {
        assert KeptFrom(raw, features, j) == k';
      }
    } else {
      assert aug[j..] == [];
    }
  }

  /**
   * The rows `preprocess` returns are exactly the projections of the input
   * rows that `Keeps` holds of, each once and in input order.
   */
  lemma PreprocessRows(f: Frame)
    requires WellFormed(f) && HasTimestamps(f)
    ensures var out, k := PreprocessFrame(f).value.rows, KeptIndices(f.rows, Features(f));
            && |out| == |k|
            && (forall a, b :: 0 <= a < b < |k| ==> k[a] < k[b])
            && (forall m :: 0 <= m < |f.rows| ==> (m in k <==> Keeps(f.rows[m], Features(f))))
            && forall i :: 0 <= i < |out| ==> k[i] < |f.rows| && out[i] == ProjectRow(WithDurationRow(f.rows[k[i]]), Features(f))
  {
    var g := WithDuration(f);
    var features := AvailableFeatures(g.columns);
    assert features == Features(f);
    assert AllowList[1] == Duration;
    assert Duration in features;
    KeptRowsHaveFeatures(g, g.rows);
    ChainFrom(f.rows, g.rows, features, 0);
    assert g.rows[0..] == g.rows;
    assert PreprocessFrame(f).value.rows == Chain(g.rows, features);
  }
}
