/** The tabular dataset: ordered, typed columns over a sequence of rows. */
module Tables {
  import opened Wrappers
  import opened Values

  /** A column's dtype, as pandas' `select_dtypes` and `is_datetime64_any_dtype` see it. */
  datatype Kind = Numeric | DateTime | Object

  datatype Column = Column(name: string, kind: Kind)

  /** A row maps column names to cells; a name the row lacks reads as missing. */
  type Row = map<string, Value>

  datatype Table = Table(columns: seq<Column>, rows: seq<Row>)

  /** The shared, mutable dataframe object that several components hold a reference to. */
  class DataFrame {
    var table: Table

    constructor (t: Table)
      ensures table == t
    {
      table := t;
    }
  }

  function Names(cols: seq<Column>): (r: seq<string>)
    ensures |r| == |cols|
    ensures forall i :: 0 <= i < |cols| ==> r[i] == cols[i].name
  {
    if cols == [] then [] else [cols[0].name] + Names(cols[1..])
  }

  predicate Has(t: Table, c: string) {
    c in Names(t.columns)
  }

  /** Column names are distinct, as they are in a dataframe read from a CSV file. */
  ghost predicate WellFormed(t: Table) {
    forall i, j :: 0 <= i < j < |t.columns| ==> t.columns[i].name != t.columns[j].name
  }

  function Cell(r: Row, c: string): Value {
    if c in r then r[c] else Missing
  }

  function ColumnValues(t: Table, c: string): (r: seq<Value>)
    ensures |r| == |t.rows|
    ensures forall i :: 0 <= i < |t.rows| ==> r[i] == Cell(t.rows[i], c)
  {
    seq(|t.rows|, i requires 0 <= i < |t.rows| => Cell(t.rows[i], c))
  }

  /** The dtype of a present column (the first one of that name). */
  function KindOf(cols: seq<Column>, c: string): Kind
    requires c in Names(cols)
  {
    if cols[0].name == c then cols[0].kind else KindOf(cols[1..], c)
  }

  lemma KindOfAt(cols: seq<Column>, i: nat)
    requires i < |cols|
    requires forall a, b :: 0 <= a < b < |cols| ==> cols[a].name != cols[b].name
    ensures KindOf(cols, cols[i].name) == cols[i].kind
  {
    if i > 0 {
      KindOfAt(cols[1..], i - 1);
    }
  }

  /** The rows `keep` selects, in their original order: a boolean-mask selection `df[mask]`. */
  function Where(rows: seq<Row>, keep: Row -> bool): (r: seq<Row>)
    ensures |r| <= |rows|
    ensures forall x :: x in r ==> x in rows && keep(x)
  {
    if rows == [] then []
    else (if keep(rows[0]) then [rows[0]] else []) + Where(rows[1..], keep)
  }

  /** Selecting from a concatenation selects from each part. */
  lemma {:induction false} WhereAppend(a: seq<Row>, b: seq<Row>, keep: Row -> bool)
    ensures Where(a + b, keep) == Where(a, keep) + Where(b, keep)
  {
    if a == [] {
      assert a + b == b;
    } else {
      assert (a + b)[0] == a[0] && (a + b)[1..] == a[1..] + b;
      WhereAppend(a[1..], b, keep);
    }
  }

  /** A selected row occurs as often as in the input if `keep` accepts it, and not at all otherwise. */
  lemma {:induction false} WhereCount(rows: seq<Row>, keep: Row -> bool, x: Row)
    ensures multiset(Where(rows, keep))[x] == if keep(x) then multiset(rows)[x] else 0
  {
    if rows != [] {
      WhereCount(rows[1..], keep, x);
      assert rows == [rows[0]] + rows[1..];
    }
  }

  /** Two selections that agree on every row of `rows` select the same rows. */
  lemma {:induction false} WhereSame(rows: seq<Row>, p: Row -> bool, q: Row -> bool)
    requires forall x :: x in rows ==> p(x) == q(x)
    ensures Where(rows, p) == Where(rows, q)
  {
    if rows != [] {
      assert forall x :: x in rows[1..] ==> x in rows;
      WhereSame(rows[1..], p, q);
    }
  }

  /** Selecting by `p` and then by `q` selects by their conjunction `pq`. */
  lemma {:induction false} WhereThenWhere(rows: seq<Row>, p: Row -> bool, q: Row -> bool, pq: Row -> bool)
    requires forall x :: x in rows ==> pq(x) == (p(x) && q(x))
    ensures Where(Where(rows, p), q) == Where(rows, pq)
  {
    if rows != [] {
      assert forall x :: x in rows[1..] ==> x in rows;
      WhereThenWhere(rows[1..], p, q, pq);
      var head := if p(rows[0]) then [rows[0]] else [];
      WhereAppend(head, Where(rows[1..], p), q);
    }
  }

  function Restrict(r: Row, names: seq<string>): (p: Row)
    ensures p.Keys == r.Keys * set c | c in names
    ensures forall c :: c in p ==> p[c] == r[c]
  {
    map c | c in r && c in names :: r[c]
  }

  /** The names of `names` that `t` lacks, in order. */
  function MissingNames(t: Table, names: seq<string>): (r: seq<string>)
    ensures forall c :: c in r <==> c in names && !Has(t, c)
  {
    if names == [] then []
    else (if Has(t, names[0]) then [] else [names[0]]) + MissingNames(t, names[1..])
  }

  /** When every name but the first is present, only the first can be reported missing. */
  lemma MissingOnlyFirst(t: Table, names: seq<string>)
    requires names != [] && forall c :: c in names[1..] ==> Has(t, c)
    ensures MissingNames(t, names) == if Has(t, names[0]) then [] else [names[0]]
  {
    var rest := MissingNames(t, names[1..]);
    assert forall c :: c !in rest;
  }

  /** When every name is a column of the table, none is reported missing. */
  lemma NoneMissing(x: Table, names: seq<string>)
    requires forall c :: c in names ==> Has(x, c)
    ensures MissingNames(x, names) == []
  {
  }

  function ColumnsNamed(cols: seq<Column>, names: seq<string>): (r: seq<Column>)
    requires forall c :: c in names ==> c in Names(cols)
    ensures Names(r) == names
  {
    if names == [] then []
    else [Column(names[0], KindOf(cols, names[0]))] + ColumnsNamed(cols, names[1..])
  }

  /** `df[names]`: the named columns in the given order, or a KeyError naming the absent ones. */
  function Select(t: Table, names: seq<string>): (r: Result<Table>)
    ensures r.Err? <==> exists c :: c in names && !Has(t, c)
    ensures r.Err? ==> r.error == KeyError(MissingNames(t, names))
    ensures r.Ok? ==> Names(r.value.columns) == names && |r.value.rows| == |t.rows|
    ensures r.Ok? ==> forall i :: 0 <= i < |t.rows| ==> r.value.rows[i] == Restrict(t.rows[i], names)
  {
    var missing := MissingNames(t, names);
    if missing != [] then
      assert missing[0] in names;
      Err(KeyError(missing))
    else
      Ok(Table(ColumnsNamed(t.columns, names),
               seq(|t.rows|, i requires 0 <= i < |t.rows| => Restrict(t.rows[i], names))))
  }

  /** `s` is `t` with some entries left out and the others in their order. */
  predicate Subsequence(s: seq<string>, t: seq<string>) {
    if s == [] then true
    else if t == [] then false
    else (s[0] == t[0] && Subsequence(s[1..], t[1..])) || Subsequence(s, t[1..])
  }

  /** An entry of a subsequence is an entry of the whole. */
  lemma {:induction false} SubsequenceMembers(s: seq<string>, t: seq<string>)
    requires Subsequence(s, t)
    ensures forall x :: x in s ==> x in t
  {
    if s != [] {
      if s[0] == t[0] && Subsequence(s[1..], t[1..]) {
        SubsequenceMembers(s[1..], t[1..]);
        assert forall x :: x in s ==> x == s[0] || x in s[1..];
      } else {
        SubsequenceMembers(s, t[1..]);
      }
      assert forall x :: x in t[1..] ==> x in t;
    }
  }

  /** An entry that is kept when present: `[name]` or nothing, ahead of an ordered rest. */
  lemma OptionalThen(opt: seq<string>, name: string, s: seq<string>, t: seq<string>)
    requires opt == [] || opt == [name]
    requires Subsequence(s, t)
    ensures Subsequence(opt + s, [name] + t)
  {
    assert ([name] + t)[1..] == t;
    if opt == [] {
      assert opt + s == s;
    } else {
      assert (opt + s)[1..] == s;
    }
  }

  /** Two leading entries that are always kept. */
  lemma FixedThen(x: string, y: string, s: seq<string>, t: seq<string>)
    requires Subsequence(s, t)
    ensures Subsequence([x, y] + s, [x, y] + t)
  {
    assert ([x, y] + s)[1..] == [y] + s && ([x, y] + t)[1..] == [y] + t;
    assert ([y] + s)[1..] == s && ([y] + t)[1..] == t;
  }

  /** Replaces the cells of column `c` (which must exist) by `f` of each cell. */
  function MapColumn(t: Table, c: string, f: Value -> Value, k: Kind): (r: Table)
    ensures Names(r.columns) == Names(t.columns) && |r.rows| == |t.rows|
    ensures forall i :: 0 <= i < |t.rows| ==> r.rows[i] == t.rows[i][c := f(Cell(t.rows[i], c))]
    ensures forall i, d :: 0 <= i < |t.rows| ==>
      Cell(r.rows[i], d) == if d == c then f(Cell(t.rows[i], c)) else Cell(t.rows[i], d)
  {
    Table(SetKind(t.columns, c, k),
          seq(|t.rows|, i requires 0 <= i < |t.rows| => t.rows[i][c := f(Cell(t.rows[i], c))]))
  }

  function SetKind(cols: seq<Column>, c: string, k: Kind): (r: seq<Column>)
    ensures Names(r) == Names(cols)
  {
    if cols == [] then []
    else [if cols[0].name == c then Column(c, k) else cols[0]] + SetKind(cols[1..], c, k)
  }

  /** `df[c] = values`: overwrites column `c`, or appends it when absent. */
  function SetColumn(t: Table, c: string, k: Kind, values: seq<Value>): (r: Table)
    requires |values| == |t.rows|
    ensures Has(r, c)
    ensures Has(t, c) ==> Names(r.columns) == Names(t.columns)
    ensures !Has(t, c) ==> Names(r.columns) == Names(t.columns) + [c]
    ensures forall d :: Has(t, d) ==> Has(r, d)
    ensures |r.rows| == |t.rows|
    ensures forall i :: 0 <= i < |t.rows| ==> r.rows[i] == t.rows[i][c := values[i]]
    ensures forall i, d :: 0 <= i < |t.rows| ==>
      Cell(r.rows[i], d) == if d == c then values[i] else Cell(t.rows[i], d)
  {
    var cols := if Has(t, c) then SetKind(t.columns, c, k) else t.columns + [Column(c, k)];
    assert Names(t.columns + [Column(c, k)]) == Names(t.columns) + [c];
    Table(cols, seq(|t.rows|, i requires 0 <= i < |t.rows| => t.rows[i][c := values[i]]))
  }

  /** Row `i` after `df[c] = values`: `c` holds `values[i]`, every other cell is kept. */
  lemma SetColumnRow(t: Table, c: string, k: Kind, values: seq<Value>, i: nat)
    requires |values| == |t.rows| && i < |t.rows|
    ensures Cell(SetColumn(t, c, k, values).rows[i], c) == values[i]
    ensures forall d :: d != c ==> Cell(SetColumn(t, c, k, values).rows[i], d) == Cell(t.rows[i], d)
  {
    var r := SetColumn(t, c, k, values);
    assert r.rows[i] == t.rows[i][c := values[i]];
  }

  /** After `df[c] = values`, the first column named `c` has the dtype given. */
  lemma SetColumnKind(t: Table, c: string, k: Kind, values: seq<Value>)
    requires |values| == |t.rows|
    ensures KindOf(SetColumn(t, c, k, values).columns, c) == k
  {
    if Has(t, c) {
      SetKindFirst(t.columns, c, k);
    } else {
      AppendedKind(t.columns, Column(c, k));
    }
  }

  lemma {:induction false} SetKindFirst(cols: seq<Column>, c: string, k: Kind)
    requires c in Names(cols)
    ensures c in Names(SetKind(cols, c, k)) && KindOf(SetKind(cols, c, k), c) == k
  {
    if cols[0].name != c {
      assert Names(cols)[1..] == Names(cols[1..]);
      SetKindFirst(cols[1..], c, k);
    }
  }

  lemma {:induction false} AppendedKind(cols: seq<Column>, col: Column)
    requires col.name !in Names(cols)
    ensures Names(cols + [col])[|cols|] == col.name && col.name in Names(cols + [col])
    ensures KindOf(cols + [col], col.name) == col.kind
  {
    if cols != [] {
      assert (cols + [col])[1..] == cols[1..] + [col];
      assert Names(cols)[1..] == Names(cols[1..]);
      AppendedKind(cols[1..], col);
    }
  }

  lemma {:induction false} SetKindOther(cols: seq<Column>, c: string, k: Kind, d: string)
    requires d != c && d in Names(cols)
    ensures d in Names(SetKind(cols, c, k)) && KindOf(SetKind(cols, c, k), d) == KindOf(cols, d)
  {
    if cols[0].name != d {
      assert Names(cols)[1..] == Names(cols[1..]);
      SetKindOther(cols[1..], c, k, d);
    }
  }

  lemma {:induction false} AppendedOther(cols: seq<Column>, col: Column, d: string)
    requires d in Names(cols)
    ensures d in Names(cols + [col]) && KindOf(cols + [col], d) == KindOf(cols, d)
  {
    if cols[0].name != d {
      assert (cols + [col])[1..] == cols[1..] + [col];
      assert Names(cols)[1..] == Names(cols[1..]);
      AppendedOther(cols[1..], col, d);
    }
    assert Names(cols + [col])[..|cols|] == Names(cols);
  }

  /** Setting or converting column `c` leaves the dtype of every other column as it was. */
  lemma KindAfterSet(t: Table, c: string, k: Kind, values: seq<Value>, d: string)
    requires |values| == |t.rows| && d != c && Has(t, d)
    ensures Has(SetColumn(t, c, k, values), d) && KindOf(SetColumn(t, c, k, values).columns, d) == KindOf(t.columns, d)
  {
    if Has(t, c) {
      SetKindOther(t.columns, c, k, d);
    } else {
      AppendedOther(t.columns, Column(c, k), d);
    }
  }

  lemma KindAfterMap(t: Table, c: string, f: Value -> Value, k: Kind, d: string)
    requires d != c && Has(t, d)
    ensures Has(MapColumn(t, c, f, k), d) && KindOf(MapColumn(t, c, f, k).columns, d) == KindOf(t.columns, d)
  {
    SetKindOther(t.columns, c, k, d);
  }

  /** After `df[c] = values`, column `c` reads `values` and every other column reads as before. */
  lemma ColumnAfterSet(t: Table, c: string, k: Kind, values: seq<Value>, d: string)
    requires |values| == |t.rows|
    ensures ColumnValues(SetColumn(t, c, k, values), d) == if d == c then values else ColumnValues(t, d)
  {
  }

  /** Mapping column `c` leaves every other column as it was. */
  lemma ColumnAfterMap(t: Table, c: string, f: Value -> Value, k: Kind, d: string)
    requires d != c
    ensures ColumnValues(MapColumn(t, c, f, k), d) == ColumnValues(t, d)
  {
  }
}
