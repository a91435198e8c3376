/**
 * Tables as the pipeline sees them: a frame is an ordered list of column names and
 * a sequence of rows, each row mapping column names to cells. A cell is missing
 * (NaN / None / NaT), an integer, a float, a string, a date or a boolean. The
 * element-wise conversions the pipeline applies (`pd.to_numeric(errors="coerce")`,
 * `pd.to_datetime(errors="coerce")`, `astype(str)`, `fillna`) and pandas' left
 * merge are defined here once.
 */
module Frames {
  import opened Wrappers
  import opened Numbers
  import opened Calendar

  datatype Cell = Null | Int(i: int) | Num(x: real) | Text(s: string) | Day(d: Date) | Bool(b: bool)

  type Row = map<string, Cell>

  datatype Frame = Frame(columns: seq<string>, rows: seq<Row>)

  /** `df.get(c)` for one row: a column the row lacks reads as missing. */
  function Get(r: Row, c: string): Cell {
    if c in r then r[c] else Null
  }

  /**
   * The first of `needed` that `columns` lacks: reading `df[c]` for each of
   * `needed` in turn raises KeyError on this one first.
   */
  function FirstMissingColumn(columns: seq<string>, needed: seq<string>): (m: Option<string>)
    ensures m.None? <==> forall c :: c in needed ==> c in columns
    ensures m.Some? ==> m.value in needed && m.value !in columns
    ensures m.Some? ==> exists k :: 0 <= k < |needed| && needed[k] == m.value
                          && forall k' :: 0 <= k' < k ==> needed[k'] in columns
  {
    if |needed| == 0 then None
    else if needed[0] !in columns then Some(needed[0])
    else
      var m := FirstMissingColumn(columns, needed[1..]);
      assert forall k :: 1 <= k < |needed| ==> needed[k] == needed[1..][k - 1];
      m
  }

  /** The first missing column is the one at the first index whose column is absent. */
  lemma FirstMissingColumnAt(columns: seq<string>, needed: seq<string>, k: nat)
    requires k < |needed| && needed[k] !in columns
    requires forall k' :: 0 <= k' < k ==> needed[k'] in columns
    ensures FirstMissingColumn(columns, needed) == Some(needed[k])
  {
    var m := FirstMissingColumn(columns, needed);
    var j :| 0 <= j < |needed| && needed[j] == m.value && forall k' :: 0 <= k' < j ==> needed[k'] in columns;
  }

  /** The value of a numeric cell. */
  function NumberOf(c: Cell): Option<real> {
    match c
    case Int(i) => Some(i as real)
    case Num(x) => Some(x)
    case _ => None
  }

  predicate IsNumber(c: Cell) { c.Int? || c.Num? }

  /** A date cell pandas can hold: a real calendar day inside the Timestamp range. */
  predicate IsTimestamp(c: Cell) { c.Day? && ValidDate(c.d) && InTimestampRange(c.d) }

  /**
   * `.astype("Int64")` of a `to_numeric` result: a missing value stays missing,
   * an integral number becomes an int, a fraction makes the cast raise (None).
   */
  function Int64Cell(c: Cell): (r: Option<Cell>)
    ensures r.Some? ==> r.value.Null? || r.value.Int?
    ensures r.Some? && r.value.Int? ==> NumberOf(c) == Some(r.value.i as real)
    ensures c.Null? ==> r == Some(Null)
    ensures IsNumber(c) ==> (r.Some? <==> NumberOf(c).value == NumberOf(c).value.Floor as real)
    ensures IsNumber(c) && r.Some? ==> r.value.Int?
    ensures !IsNumber(c) && !c.Null? ==> r.None?
  {
    match c
    case Null => Some(Null)
    case Int(_) => Some(c)
    case Num(x) => if x == x.Floor as real then Some(Int(x.Floor)) else None
    case _ => None
  }

  /** The column list after assigning `df[c] = ...`: a new column goes last. */
  function WithColumn(columns: seq<string>, c: string): (r: seq<string>)
    ensures c in r && forall x :: x in columns ==> x in r
  {
    if c in columns then columns else columns + [c]
  }

  /**
   * `pd.to_numeric(cell, errors="coerce")`: numbers stay as they are, text that
   * parses becomes a float, everything else becomes missing.
   */
  function ToNumeric(c: Cell): (r: Cell)
    ensures r.Null? || IsNumber(r)
  {
    match c
    case Null => Null
    case Int(_) => c
    case Num(_) => c
    case Text(s) => (match ParseNumber(s) case Some(x) => Num(x) case None => Null)
    case Bool(b) => Int(if b then 1 else 0)
    case Day(_) => Null
  }

  /**
   * `pd.to_datetime(cell, errors="coerce")`: a Timestamp stays, ISO date text
   * becomes a date, everything else becomes NaT.
   */
  function ToDatetime(c: Cell): (r: Cell)
    ensures r.Null? || IsTimestamp(r)
  {
    match c
    case Day(d) => if ValidDate(d) && InTimestampRange(d) then c else Null
    case Text(s) => (match ParseIsoDate(s) case Some(d) => Day(d) case None => Null)
    case _ => Null
  }

  /** `.fillna(v)` for one cell. */
  function FillNa(c: Cell, v: Cell): Cell {
    if c.Null? then v else c
  }

  /** `pd.to_numeric(cell, errors="coerce").fillna(0)`. */
  function NumericOrZero(c: Cell): (r: Cell)
    ensures IsNumber(r)
    ensures IsNumber(c) ==> r == c
    ensures ToNumeric(c).Null? ==> r == Num(0.0)
  {
    FillNa(ToNumeric(c), Num(0.0))
  }

  /** `astype(str)` for one cell: a missing value becomes the text "nan". */
  function AsStr(c: Cell): string {
    match c
    case Null => "nan"
    case Int(i) => IntText(i)
    case Num(x) => FloatText(x)
    case Text(s) => s
    case Day(d) =>
      if 0 <= d.year <= 9999 && 1 <= d.month <= 12 && 1 <= d.day <= 31
      then IsoText(d) + " 00:00:00" else "NaT"
    case Bool(b) => if b then "True" else "False"
  }

  /**
   * After `astype(str)` the text "nan" marks exactly the cells that were missing
   * or already held the text "nan"; no number, date or flag renders as "nan".
   */
  lemma AsStrNan(c: Cell)
    ensures AsStr(c) == "nan" <==> c.Null? || c == Text("nan")
  {
    match c
    case Int(i) => assert IntText(i)[0] != 'n';
    case Num(x) => assert FloatText(x)[0] != 'n';
    case Day(d) =>
      if 0 <= d.year <= 9999 && 1 <= d.month <= 12 && 1 <= d.day <= 31 {
        assert AsStr(c)[4] == '-';
      }
    case _ =>
  }

  // ---------------------------------------------------------------
  // Row filters: `df[mask]` keeps the selected rows in their order.
  // ---------------------------------------------------------------

  /** The present values of `s`, in order. */
  function Present<T>(s: seq<Option<T>>): (r: seq<T>)
    ensures |r| <= |s|
  {
    if |s| == 0 then []
    else Present(s[..|s| - 1]) + (if s[|s| - 1].Some? then [s[|s| - 1].value] else [])
  }

  /** The positions of the present values of `s`, in increasing order. */
  function PresentAt<T>(s: seq<Option<T>>): (r: seq<nat>)
    ensures |r| == |Present(s)|
    ensures forall k :: 0 <= k < |r| ==> r[k] < |s| && s[r[k]].Some? && Present(s)[k] == s[r[k]].value
    ensures forall k, l :: 0 <= k < l < |r| ==> r[k] < r[l]
    ensures forall i :: 0 <= i < |s| && s[i].Some? ==> i in r
  {
    if |s| == 0 then []
    else PresentAt(s[..|s| - 1]) + (if s[|s| - 1].Some? then [|s| - 1] else [])
  }

  /** Every row, cleaned: a kept row's new value, or None for a dropped row. */
  function CleanEach(rows: seq<Row>, clean: Row -> Option<Row>): (os: seq<Option<Row>>)
    ensures |os| == |rows| && forall i :: 0 <= i < |rows| ==> os[i] == clean(rows[i])
  {
    seq(|rows|, i requires 0 <= i < |rows| => clean(rows[i]))
  }

  /**
   * The cleaners' row loop: each row in turn is cleaned, and the rows `clean`
   * keeps are appended, so the result is the kept rows, cleaned, in input order.
   */
  method KeepCleaned(rows: seq<Row>, clean: Row -> Option<Row>) returns (kept: seq<Row>)
    ensures kept == Present(CleanEach(rows, clean))
  {
    ghost var all := CleanEach(rows, clean);
    kept := [];
    var i := 0;
    while i < |rows|
      invariant 0 <= i <= |rows|
      invariant kept == Present(all[..i])
    {
      assert all[..i + 1][..i] == all[..i];
      var o := clean(rows[i]);
      if o.Some? {
        kept := kept + [o.value];
      }
      i := i + 1;
    }
    assert all[..|rows|] == all;
  }

  // ---------------------------------------------------------------
  // Left merge: `left.merge(lookup, left_on=key, how="left")`.
  // ---------------------------------------------------------------

  /** One row of a lookup table: its join key and the columns it contributes. */
  datatype LookupRow = LookupRow(key: Cell, fields: Row)

  /**
   * The contributed columns of the lookup rows whose key equals `k`, in lookup
   * order. Cells compare as values, so a missing key matches a missing key, as
   * pandas matches null keys with each other.
   */
  function Matches(lookup: seq<LookupRow>, k: Cell): (r: seq<Row>)
    ensures |r| <= |lookup|
    ensures forall x :: x in r ==> exists j :: 0 <= j < |lookup| && lookup[j].key == k && lookup[j].fields == x
  {
    if |lookup| == 0 then []
    else
      var last := lookup[|lookup| - 1];
      Matches(lookup[..|lookup| - 1], k) + (if last.key == k then [last.fields] else [])
  }

  /** The rows one left row turns into: one per match, or one with `nulls` when nothing matches. */
  function JoinRow(l: Row, key: string, lookup: seq<LookupRow>, nulls: Row): (r: seq<Row>)
    ensures |r| >= 1
  {
    var ms := Matches(lookup, Get(l, key));
    if |ms| == 0 then [l + nulls] else seq(|ms|, j requires 0 <= j < |ms| => l + ms[j])
  }

  function LeftJoin(left: seq<Row>, key: string, lookup: seq<LookupRow>, nulls: Row): (r: seq<Row>)
  {
    if |left| == 0 then []
    else LeftJoin(left[..|left| - 1], key, lookup, nulls) + JoinRow(left[|left| - 1], key, lookup, nulls)
  }

  /** Every lookup row contributes exactly the columns `nulls` has. */
  predicate LookupShape(lookup: seq<LookupRow>, nulls: Row) {
    forall j :: 0 <= j < |lookup| ==> lookup[j].fields.Keys == nulls.Keys
  }

  /** No two lookup rows share a key. */
  predicate UniqueKeys(lookup: seq<LookupRow>) {
    forall j, j' :: 0 <= j < j' < |lookup| ==> lookup[j].key != lookup[j'].key
  }

  /** No two rows of a code table share an IATA_CODE. */
  predicate UniqueCodes(t: Frame) {
    forall j, j' :: 0 <= j < j' < |t.rows| ==> Get(t.rows[j], "IATA_CODE") != Get(t.rows[j'], "IATA_CODE")
  }

  /** A left merge never loses a left row. */
  lemma {:induction false} LeftJoinKeepsRows(left: seq<Row>, key: string, lookup: seq<LookupRow>, nulls: Row)
    ensures |LeftJoin(left, key, lookup, nulls)| >= |left|
  {
    if |left| > 0 {
      LeftJoinKeepsRows(left[..|left| - 1], key, lookup, nulls);
    }
  }

  lemma {:induction false} UniqueMatches(lookup: seq<LookupRow>, k: Cell)
    requires UniqueKeys(lookup)
    ensures |Matches(lookup, k)| <= 1
    ensures |Matches(lookup, k)| == 1 <==> exists j :: 0 <= j < |lookup| && lookup[j].key == k
  {
    if |lookup| > 0 {
      var init := lookup[..|lookup| - 1];
      UniqueMatches(init, k);
      if exists j :: 0 <= j < |lookup| && lookup[j].key == k {
        var j :| 0 <= j < |lookup| && lookup[j].key == k;
        if j < |lookup| - 1 {
          assert init[j].key == k;
        }
      }
    }
  }

  /**
   * With unique lookup keys the merge is row for row: row `i` is left row `i`
   * extended by its match's columns, or by `nulls` when its key has no match.
   */
  lemma {:induction false} LeftJoinUnique(left: seq<Row>, key: string, lookup: seq<LookupRow>, nulls: Row)
    requires UniqueKeys(lookup)
    ensures |LeftJoin(left, key, lookup, nulls)| == |left|
    ensures forall i :: 0 <= i < |left| ==>
              var ms := Matches(lookup, Get(left[i], key));
              LeftJoin(left, key, lookup, nulls)[i] == left[i] + (if |ms| == 0 then nulls else ms[0])
  {
    if |left| > 0 {
      var init := left[..|left| - 1];
      LeftJoinUnique(init, key, lookup, nulls);
      UniqueMatches(lookup, Get(left[|left| - 1], key));
      forall i | 0 <= i < |left|
        ensures var ms := Matches(lookup, Get(left[i], key));
                LeftJoin(left, key, lookup, nulls)[i] == left[i] + (if |ms| == 0 then nulls else ms[0])
      {
        if i < |left| - 1 {
          assert left[i] == init[i];
        }
      }
    }
  }

  /** Each merged row is some left row extended by matched or null columns, in left order. */
  lemma {:induction false} LeftJoinRowsExtendLeft(left: seq<Row>, key: string, lookup: seq<LookupRow>, nulls: Row)
    requires LookupShape(lookup, nulls)
    ensures forall r :: r in LeftJoin(left, key, lookup, nulls) ==>
              exists i :: 0 <= i < |left| && r.Keys == left[i].Keys + nulls.Keys
                && forall c :: c in left[i] && c !in nulls ==> r[c] == left[i][c]
  {
    if |left| > 0 {
      var init := left[..|left| - 1];
      var l := left[|left| - 1];
      LeftJoinRowsExtendLeft(init, key, lookup, nulls);
      forall r | r in LeftJoin(left, key, lookup, nulls)
        ensures exists i :: 0 <= i < |left| && r.Keys == left[i].Keys + nulls.Keys
                  && forall c :: c in left[i] && c !in nulls ==> r[c] == left[i][c]
      {
        if r in LeftJoin(init, key, lookup, nulls) {
          var i :| 0 <= i < |init| && r.Keys == init[i].Keys + nulls.Keys
                   && forall c :: c in init[i] && c !in nulls ==> r[c] == init[i][c];
          assert left[i] == init[i];
        } else {
          JoinRowExtends(l, key, lookup, nulls, r);
          assert left[|left| - 1] == l;
        }
      }
    }
  }

  /** Each row one left row turns into has the left row's fields plus the lookup's columns. */
  lemma JoinRowExtends(l: Row, key: string, lookup: seq<LookupRow>, nulls: Row, r: Row)
    requires LookupShape(lookup, nulls)
    requires r in JoinRow(l, key, lookup, nulls)
    ensures r.Keys == l.Keys + nulls.Keys
    ensures forall c :: c in l && c !in nulls ==> r[c] == l[c]
  {
    var ms := Matches(lookup, Get(l, key));
    if |ms| > 0 {
      var j :| 0 <= j < |ms| && r == l + ms[j];
      assert ms[j] in ms;
    }
  }

  /** A merged row reads, outside the lookup's columns, exactly as some left row. */
  lemma LeftJoinRowOrigin(left: seq<Row>, key: string, lookup: seq<LookupRow>, nulls: Row, r: Row)
    requires LookupShape(lookup, nulls)
    requires r in LeftJoin(left, key, lookup, nulls)
    ensures exists i :: 0 <= i < |left| && forall c :: c !in nulls ==> Get(r, c) == Get(left[i], c)
  {
    LeftJoinRowsExtendLeft(left, key, lookup, nulls);
    var i :| 0 <= i < |left| && r.Keys == left[i].Keys + nulls.Keys
             && forall c :: c in left[i] && c !in nulls ==> r[c] == left[i][c];
    assert forall c :: c !in nulls ==> Get(r, c) == Get(left[i], c);
  }

  /** Three chained left merges: a row reads, outside all three lookups' columns, as some left row. */
  lemma ChainedJoinRowOrigin(left: seq<Row>, k1: string, l1: seq<LookupRow>, n1: Row,
                             k2: string, l2: seq<LookupRow>, n2: Row,
                             k3: string, l3: seq<LookupRow>, n3: Row, r: Row)
    requires LookupShape(l1, n1) && LookupShape(l2, n2) && LookupShape(l3, n3)
    requires r in LeftJoin(LeftJoin(LeftJoin(left, k1, l1, n1), k2, l2, n2), k3, l3, n3)
    ensures exists i :: 0 <= i < |left| && forall c :: c !in n1 && c !in n2 && c !in n3 ==> Get(r, c) == Get(left[i], c)
  {
    var m1 := LeftJoin(left, k1, l1, n1);
    var m2 := LeftJoin(m1, k2, l2, n2);
    LeftJoinRowOrigin(m2, k3, l3, n3, r);
    var i2 :| 0 <= i2 < |m2| && forall c :: c !in n3 ==> Get(r, c) == Get(m2[i2], c);
    LeftJoinRowOrigin(m1, k2, l2, n2, m2[i2]);
    var i1 :| 0 <= i1 < |m1| && forall c :: c !in n2 ==> Get(m2[i2], c) == Get(m1[i1], c);
    LeftJoinRowOrigin(left, k1, l1, n1, m1[i1]);
    var i :| 0 <= i < |left| && forall c :: c !in n1 ==> Get(m1[i1], c) == Get(left[i], c);
    assert forall c :: c !in n1 && c !in n2 && c !in n3 ==> Get(r, c) == Get(left[i], c);
  }

  /** With unique lookup keys, merged row `i` reads, outside the lookup's columns, as left row `i`. */
  lemma LeftJoinUniqueKeeps(left: seq<Row>, key: string, lookup: seq<LookupRow>, nulls: Row)
    requires UniqueKeys(lookup) && LookupShape(lookup, nulls)
    ensures |LeftJoin(left, key, lookup, nulls)| == |left|
    ensures forall i, c :: 0 <= i < |left| && c !in nulls ==> Get(LeftJoin(left, key, lookup, nulls)[i], c) == Get(left[i], c)
  {
    LeftJoinUnique(left, key, lookup, nulls);
    forall i, c | 0 <= i < |left| && c !in nulls
      ensures Get(LeftJoin(left, key, lookup, nulls)[i], c) == Get(left[i], c)
    {
      var ms := Matches(lookup, Get(left[i], key));
      if |ms| > 0 {
        assert ms[0] in ms;
      }
    }
  }

  /** With unique lookup keys, merged row `i` holds its match's value of `c`, or the null row's without a match. */
  lemma LeftJoinUniqueAdds(left: seq<Row>, key: string, lookup: seq<LookupRow>, nulls: Row, i: nat, c: string)
    requires UniqueKeys(lookup) && LookupShape(lookup, nulls)
    requires i < |left| && c in nulls
    ensures |LeftJoin(left, key, lookup, nulls)| == |left|
    ensures var ms := Matches(lookup, Get(left[i], key));
            Get(LeftJoin(left, key, lookup, nulls)[i], c) == if |ms| == 0 then nulls[c] else Get(ms[0], c)
  {
    LeftJoinUnique(left, key, lookup, nulls);
    var ms := Matches(lookup, Get(left[i], key));
    if |ms| > 0 {
      assert ms[0] in ms;
    }
  }

  /** Three chained left merges on unique keys go row for row, each merge keeping the columns it does not add. */
  lemma ChainedJoinUnique(left: seq<Row>, k1: string, l1: seq<LookupRow>, n1: Row,
                          k2: string, l2: seq<LookupRow>, n2: Row,
                          k3: string, l3: seq<LookupRow>, n3: Row)
    requires LookupShape(l1, n1) && LookupShape(l2, n2) && LookupShape(l3, n3)
    requires UniqueKeys(l1) && UniqueKeys(l2) && UniqueKeys(l3)
    ensures var m1 := LeftJoin(left, k1, l1, n1);
            var m3 := LeftJoin(LeftJoin(m1, k2, l2, n2), k3, l3, n3);
            && |m1| == |left| && |m3| == |left|
            && (forall i, c :: 0 <= i < |left| && c !in n2 && c !in n3 ==> Get(m3[i], c) == Get(m1[i], c))
            && (forall i, c :: 0 <= i < |left| && c !in n1 ==> Get(m1[i], c) == Get(left[i], c))
  {
    var m1 := LeftJoin(left, k1, l1, n1);
    var m2 := LeftJoin(m1, k2, l2, n2);
    LeftJoinUniqueKeeps(left, k1, l1, n1);
    LeftJoinUniqueKeeps(m1, k2, l2, n2);
    LeftJoinUniqueKeeps(m2, k3, l3, n3);
  }
}
