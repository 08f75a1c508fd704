/**
 * A data frame as the monitoring script sees it: an ordered list of column
 * headers, each with the numeric flag that pandas' dtype inference would give
 * it, and a sequence of rows, each mapping every column name to a cell.
 * A cell is None when pandas holds a null (NaN, NaT or None) there.
 */
module Frames {
  import opened Wrappers

  datatype Column = Column(name: string, numeric: bool)

  type Row = map<string, Option<real>>

  datatype Frame = Frame(columns: seq<Column>, rows: seq<Row>)

  function Names(cols: seq<Column>): seq<string>
  {
    seq(|cols|, i requires 0 <= i < |cols| => cols[i].name)
  }

  function NameSet(cols: seq<Column>): set<string>
  {
    set x | x in Names(cols)
  }

  ghost predicate Distinct<T>(s: seq<T>)
  {
    forall i, j :: 0 <= i < j < |s| ==> s[i] != s[j]
  }

  /** Column names are unique and every row has a cell for exactly those columns. */
  ghost predicate WellFormed(f: Frame)
  {
    && Distinct(Names(f.columns))
    && forall i :: 0 <= i < |f.rows| ==> f.rows[i].Keys == NameSet(f.columns)
  }

  /** No row holds a null in any column. */
  ghost predicate Complete(f: Frame)
  {
    forall i, c :: 0 <= i < |f.rows| && c in f.rows[i] ==> f.rows[i][c].Some?
  }

  /** The column `name` of a null-free frame as a sample of reals, in row order (`df[name]`). */
  function Values(f: Frame, name: string): (v: seq<real>)
    requires WellFormed(f) && Complete(f) && name in NameSet(f.columns)
    ensures |v| == |f.rows|
    ensures forall i :: 0 <= i < |v| ==> f.rows[i][name] == Some(v[i])
  {
    seq(|f.rows|, i requires 0 <= i < |f.rows| => f.rows[i][name].value)
  }

  /**
   * The names of `names` that occur in `present`, in the order of `names`:
   * a list comprehension `[c for c in names if c in present]`.
   */
  function KeepPresent(names: seq<string>, present: set<string>): (r: seq<string>)
    ensures forall x :: x in r <==> x in names && x in present
    ensures |r| <= |names|
  {
    if names == [] then []
    else if names[0] in present then [names[0]] + KeepPresent(names[1..], present)
    else KeepPresent(names[1..], present)
  }

  /** Filtering a list without repeats gives a list without repeats. */
  lemma {:induction false} KeepPresentDistinct(names: seq<string>, present: set<string>)
    requires Distinct(names)
    ensures Distinct(KeepPresent(names, present))
  {
    if names != [] {
      assert Distinct(names[1..]) && names[0] !in names[1..];
      KeepPresentDistinct(names[1..], present);
    }
  }

  /** KeepPresent only looks at the membership of the names it is given. */
  lemma {:induction false} KeepPresentAgree(names: seq<string>, a: set<string>, b: set<string>)
    requires forall x :: x in names ==> (x in a <==> x in b)
    ensures KeepPresent(names, a) == KeepPresent(names, b)
  {
    if names != [] {
      KeepPresentAgree(names[1..], a, b);
    }
  }

  /** Filtering twice is filtering once by both sets. */
  lemma {:induction false} KeepPresentTwice(names: seq<string>, a: set<string>, b: set<string>)
    ensures KeepPresent(KeepPresent(names, a), b) == KeepPresent(names, a * b)
  {
    if names != [] {
      KeepPresentTwice(names[1..], a, b);
      var rest := KeepPresent(names[1..], a);
      if names[0] in a {
        assert KeepPresent(names, a) == [names[0]] + rest;
        assert ([names[0]] + rest)[1..] == rest;
      }
    }
  }

  /**
   * A filtered list is the filter of `names` by its own elements: it keeps
   * the order of `names` and is determined by which names it holds.
   */
  lemma KeepPresentSelf(names: seq<string>, present: set<string>)
    ensures var r := KeepPresent(names, present);
            r == KeepPresent(names, set x | x in r)
  {
    var r := KeepPresent(names, present);
    KeepPresentAgree(names, present, set x | x in r);
  }

  /** Filtering a concatenation filters each part. */
  lemma {:induction false} KeepPresentConcat(a: seq<string>, b: seq<string>, present: set<string>)
    ensures KeepPresent(a + b, present) == KeepPresent(a, present) + KeepPresent(b, present)
  {
    if a == [] {
      assert a + b == b;
    } else {
      var ab := a + b;
      assert ab[0] == a[0] && ab[1..] == a[1..] + b;
      KeepPresentConcat(a[1..], b, present);
    }
  }

  /** Filtering one more name extends the filtered prefix by that name when it is present. */
  lemma KeepPresentSnoc(names: seq<string>, i: nat, present: set<string>)
    requires i < |names|
    ensures KeepPresent(names[..i + 1], present)
         == KeepPresent(names[..i], present) + (if names[i] in present then [names[i]] else [])
  {
    KeepPresentConcat(names[..i], [names[i]], present);
    assert names[..i + 1] == names[..i] + [names[i]];
  }

  /** When nothing before position i is kept and names[i] is, names[i] is the first name kept. */
  lemma KeepPresentFirst(names: seq<string>, i: nat, present: set<string>)
    requires i < |names| && names[i] in present && KeepPresent(names[..i], present) == []
    ensures KeepPresent(names, present) != [] && KeepPresent(names, present)[0] == names[i]
  {
    KeepPresentConcat(names[..i], names[i..], present);
    assert names == names[..i] + names[i..];
    assert names[i..][0] == names[i];
  }

  /** The names of the numeric columns, in column order (`select_dtypes(include=[np.number]).columns`). */
  function NumericNames(cols: seq<Column>): (r: seq<string>)
    ensures forall i :: 0 <= i < |cols| && cols[i].numeric ==> cols[i].name in r
    ensures forall x :: x in r ==> exists i :: 0 <= i < |cols| && cols[i].name == x && cols[i].numeric
    ensures forall x :: x in r ==> x in NameSet(cols)
  {
    if cols == [] then []
    else
      var rest := NumericNames(cols[1..]);
      assert forall x :: x in rest ==> exists i :: 1 <= i < |cols| && cols[i].name == x && cols[i].numeric by {
        forall x | x in rest ensures exists i :: 1 <= i < |cols| && cols[i].name == x && cols[i].numeric {
          var j :| 0 <= j < |cols[1..]| && cols[1..][j].name == x && cols[1..][j].numeric;
          assert cols[j + 1] == cols[1..][j];
        }
      }
      assert Names(cols[1..]) == Names(cols)[1..];
      assert Names(cols)[0] == cols[0].name;
      if cols[0].numeric then [cols[0].name] + rest else rest
  }

  function NumericSet(cols: seq<Column>): set<string>
  {
    set i | 0 <= i < |cols| && cols[i].numeric :: cols[i].name
  }

  lemma NumericSetCons(cols: seq<Column>)
    requires cols != []
    ensures NumericSet(cols) == (if cols[0].numeric then {cols[0].name} else {}) + NumericSet(cols[1..])
  {
    var tail := cols[1..];
    forall x | x in NumericSet(cols)
      ensures x in (if cols[0].numeric then {cols[0].name} else {}) + NumericSet(tail)
    {
      var i :| 0 <= i < |cols| && cols[i].numeric && cols[i].name == x;
      if i > 0 {
        assert tail[i - 1] == cols[i];
      }
    }
    forall x | x in NumericSet(tail)
      ensures x in NumericSet(cols)
    {
      var i :| 0 <= i < |tail| && tail[i].numeric && tail[i].name == x;
      assert cols[i + 1] == tail[i];
    }
  }

  /** With unique names, the numeric columns are the column names filtered by the numeric ones. */
  lemma {:induction false} NumericNamesAsFilter(cols: seq<Column>)
    requires Distinct(Names(cols))
    ensures NumericNames(cols) == KeepPresent(Names(cols), NumericSet(cols))
  {
    if cols != [] {
      var tail := cols[1..];
      assert Names(tail) == Names(cols)[1..];
      NumericNamesAsFilter(tail);
      NumericSetCons(cols);
      forall j | 0 <= j < |tail|
        ensures Names(tail)[j] != cols[0].name
      {
        assert Names(tail)[j] == Names(cols)[j + 1];
        assert Names(cols)[0] == cols[0].name;
      }
      KeepPresentAgree(Names(tail), NumericSet(tail), NumericSet(cols));
    }
  }
}
