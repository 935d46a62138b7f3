/** Cell values of a table and the order the libraries sort them in. */
module Values {

  /** A table cell: a number, a text, a date (whole days since the epoch) or missing (NaN/NaT). */
  datatype Value = Num(x: real) | Text(s: string) | Date(day: int) | Missing

  /** `a * b` on two cells: a product of numbers, NaN (missing) otherwise. */
  function Times(a: Value, b: Value): (r: Value)
    ensures r.Num? <==> a.Num? && b.Num?
    ensures r.Num? ==> r.x == a.x * b.x
  {
    if a.Num? && b.Num? then Num(a.x * b.x) else Missing
  }

  /**
   * `a / b` on two cells. A zero divisor gives an infinity or NaN in floating point;
   * this total version yields missing for it.
   */
  function Ratio(a: Value, b: Value): (r: Value)
    ensures r.Num? <==> a.Num? && b.Num? && b.x != 0.0
    ensures r.Num? ==> r.x * b.x == a.x
  {
    if a.Num? && b.Num? && b.x != 0.0 then Num(a.x / b.x) else Missing
  }

  /** `a <= b` on two cells as pandas compares them: only two numbers can satisfy it (NaN compares false). */
  predicate AtMost(a: Value, b: Value) {
    a.Num? && b.Num? && a.x <= b.x
  }

  /** Position of a value's kind in the cross-kind order: numbers, dates, texts, then missing. */
  function Rank(v: Value): nat {
    match v
    case Num(_) => 0
    case Date(_) => 1
    case Text(_) => 2
    case Missing => 3
  }

  /** Lexicographic order on strings by code point, as Python compares `str`. */
  predicate StrLess(a: string, b: string)
    decreases |a|
  {
    if a == [] then b != []
    else if b == [] then false
    else a[0] < b[0] || (a[0] == b[0] && StrLess(a[1..], b[1..]))
  }

  /** The strict order used whenever the modelled code sorts values. */
  predicate Less(a: Value, b: Value) {
    if Rank(a) != Rank(b) then Rank(a) < Rank(b)
    else match (a, b)
      case (Num(x), Num(y)) => x < y
      case (Date(d), Date(e)) => d < e
      case (Text(s), Text(t)) => StrLess(s, t)
      case _ => false
  }

  lemma {:induction false} StrLessIrreflexive(a: string)
    ensures !StrLess(a, a)
  {
    if a != [] {
      StrLessIrreflexive(a[1..]);
    }
  }

  lemma {:induction false} StrLessTransitive(a: string, b: string, c: string)
    requires StrLess(a, b) && StrLess(b, c)
    ensures StrLess(a, c)
    decreases |a|
  {
    if a != [] && b != [] && c != [] && a[0] == b[0] && b[0] == c[0] {
      StrLessTransitive(a[1..], b[1..], c[1..]);
    }
  }

  lemma {:induction false} StrLessTotal(a: string, b: string)
    requires a != b
    ensures StrLess(a, b) || StrLess(b, a)
    decreases |a|
  {
    if a != [] && b != [] && a[0] == b[0] {
      assert a == [a[0]] + a[1..] && b == [b[0]] + b[1..];
      StrLessTotal(a[1..], b[1..]);
    }
  }

  lemma LessIrreflexive(a: Value)
    ensures !Less(a, a)
  {
    if a.Text? {
      StrLessIrreflexive(a.s);
    }
  }

  lemma LessTransitive(a: Value, b: Value, c: Value)
    requires Less(a, b) && Less(b, c)
    ensures Less(a, c)
  {
    if a.Text? && b.Text? && c.Text? {
      StrLessTransitive(a.s, b.s, c.s);
    }
  }

  lemma LessTotal(a: Value, b: Value)
    requires a != b
    ensures Less(a, b) || Less(b, a)
  {
    if a.Text? && b.Text? {
      StrLessTotal(a.s, b.s);
    }
  }

  /** The values occurring in `s`. */
  function Members(s: seq<Value>): (r: set<Value>)
    ensures forall v :: v in r <==> v in s
  {
    set v | v in s
  }

  /** Every earlier element is smaller than every later one (so the sequence has no repeats). */
  ghost predicate StrictlyIncreasing(s: seq<Value>) {
    forall i, j :: 0 <= i < j < |s| ==> Less(s[i], s[j])
  }

  /** Inserts `v` into a strictly increasing sequence unless it is already there. */
  function Insert(s: seq<Value>, v: Value): (r: seq<Value>)
  {
    if s == [] then [v]
    else if v == s[0] then s
    else if Less(v, s[0]) then [v] + s
    else [s[0]] + Insert(s[1..], v)
  }

  lemma {:induction false} InsertCorrect(s: seq<Value>, v: Value)
    requires StrictlyIncreasing(s)
    ensures StrictlyIncreasing(Insert(s, v))
    ensures forall u :: u in Insert(s, v) <==> u in s || u == v
  {
    if s == [] {
    } else if v == s[0] {
    } else if Less(v, s[0]) {
      var r := [v] + s;
      forall i, j | 0 <= i < j < |r| ensures Less(r[i], r[j]) {
        if i == 0 && j > 1 {
          LessTransitive(v, s[0], s[j - 1]);
        }
      }
    } else {
      LessTotal(v, s[0]);
      InsertCorrect(s[1..], v);
      var t := Insert(s[1..], v);
      var r := [s[0]] + t;
      assert s == [s[0]] + s[1..];
      forall i, j | 0 <= i < j < |r| ensures Less(r[i], r[j]) {
        if i == 0 {
          assert r[j] in t;
          assert r[j] in s[1..] || r[j] == v;
        }
      }
    }
  }

  /** The distinct values of `vals`, in ascending order (NumPy's `unique`, pandas' sorted group keys). */
  function SortedDistinct(vals: seq<Value>): (r: seq<Value>)
  {
    if vals == [] then [] else Insert(SortedDistinct(vals[..|vals| - 1]), vals[|vals| - 1])
  }

  lemma {:induction false} SortedDistinctCorrect(vals: seq<Value>)
    ensures StrictlyIncreasing(SortedDistinct(vals))
    ensures forall u :: u in SortedDistinct(vals) <==> u in vals
  {
    if vals != [] {
      var init := vals[..|vals| - 1];
      SortedDistinctCorrect(init);
      InsertCorrect(SortedDistinct(init), vals[|vals| - 1]);
      assert vals == init + [vals[|vals| - 1]];
    }
  }

  /** A strictly increasing sequence holds each value at most once. */
  lemma StrictlyIncreasingDistinct(s: seq<Value>, i: nat, j: nat)
    requires StrictlyIncreasing(s) && i < |s| && j < |s| && s[i] == s[j]
    ensures i == j
  {
    if i < j {
      LessIrreflexive(s[i]);
    } else if j < i {
      LessIrreflexive(s[j]);
    }
  }
}
