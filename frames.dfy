/**
 * The part of a pandas DataFrame the scripts rely on: named columns in a fixed
 * order, rows of cells, and the column and row operations they call. A frame
 * is a value: pandas' in-place updates and reassignments of `df` are modelled
 * as a new frame replacing the old one, which is the same thing for frames
 * that nothing else refers to.
 */
module Frames {
  import opened Wrappers

  /**
   * One cell. Text that pandas can read as a number is represented by that
   * number (`Num`); `Text` stands for text that is not a number.
   */
  datatype Cell = Num(value: real) | Text(text: string) | NaN

  /** The errors that stop a script. */
  datatype Fault =
    | FileNotFound                          // reading the dataset or model file failed
    | MissingColumn(column: string)         // KeyError: the column is not in the frame
    | DuplicateColumns                      // a rename gave two columns the same name
    | NoStrings(column: string)             // `.str` used on a column that holds no text
    | NotNumeric(column: string, row: nat)  // ValueError/TypeError: text where a number is needed
    | NaNToInt(row: nat)                    // ValueError: `int()` of a NaN
    | EmptyFrame                            // IndexError: `iloc[0]` of a frame without rows
    | NoRows                                // ValueError: `apply(axis=1)` over no rows gives a frame, not a column

  /** How a script ends early: its exit status and the error behind it. */
  datatype Stop = Stop(status: int, fault: Fault)

  datatype Frame = Frame(names: seq<string>, rows: seq<seq<Cell>>)

  predicate Distinct<T(==)>(s: seq<T>) {
    forall i, j | 0 <= i < j < |s| :: s[i] != s[j]
  }

  /** Column names are unique and every row has one cell per column. */
  predicate WellFormed(f: Frame) {
    Distinct(f.names) && forall i | 0 <= i < |f.rows| :: |f.rows[i]| == |f.names|
  }

  function IndexOf<T(==)>(s: seq<T>, x: T): (k: nat)
    requires x in s
    ensures k < |s| && s[k] == x
    ensures forall j | 0 <= j < k :: s[j] != x
  {
    if s[0] == x then 0 else 1 + IndexOf(s[1..], x)
  }

  lemma IndexOfAt<T>(s: seq<T>, k: nat)
    requires Distinct(s) && k < |s|
    ensures IndexOf(s, s[k]) == k
  {
  }

  /** The cell of column `n` in a row laid out as `names`. */
  function At(names: seq<string>, row: seq<Cell>, n: string): Cell
    requires |row| == |names| && n in names
  {
    row[IndexOf(names, n)]
  }

  /** `df.loc[i, n]`. */
  function Get(f: Frame, i: int, n: string): Cell
    requires WellFormed(f) && 0 <= i < |f.rows| && n in f.names
  {
    At(f.names, f.rows[i], n)
  }

  /** `df[n]` as a sequence of cells. */
  function Column(f: Frame, n: string): (c: seq<Cell>)
    requires WellFormed(f) && n in f.names
    ensures |c| == |f.rows|
    ensures forall i | 0 <= i < |c| :: c[i] == Get(f, i, n)
  {
    seq(|f.rows|, i requires 0 <= i < |f.rows| => Get(f, i, n))
  }

  // ---------------------------------------------------------------------------
  // Column operations

  function RenamedName(m: map<string, string>, n: string): string {
    if n in m then m[n] else n
  }

  function RenameAll(m: map<string, string>, names: seq<string>): (r: seq<string>)
    ensures |r| == |names|
    ensures forall k | 0 <= k < |names| :: r[k] == RenamedName(m, names[k])
  {
    seq(|names|, k requires 0 <= k < |names| => RenamedName(m, names[k]))
  }

  /**
   * `df.rename(columns=m)`: columns listed in `m` get their new name, the
   * others keep theirs, and every column keeps its place and its values. A
   * rename that makes two names equal is an error (pandas accepts it, and the
   * next access to the repeated name fails).
   */
  function Rename(f: Frame, m: map<string, string>): (r: Result<Frame, Fault>)
    requires WellFormed(f)
    ensures r.Success? <==> Distinct(RenameAll(m, f.names))
    ensures r.Failure? ==> r.error == DuplicateColumns
    ensures r.Success? ==> WellFormed(r.value) && r.value.names == RenameAll(m, f.names) && |r.value.rows| == |f.rows|
    ensures r.Success? ==> forall i, n | 0 <= i < |f.rows| && n in f.names ::
      RenamedName(m, n) in r.value.names && Get(r.value, i, RenamedName(m, n)) == Get(f, i, n)
  {
    var names := RenameAll(m, f.names);
    if !Distinct(names) then Failure(DuplicateColumns)
    else
      var g := Frame(names, f.rows);
      assert forall i, n | 0 <= i < |f.rows| && n in f.names ::
        RenamedName(m, n) in g.names && Get(g, i, RenamedName(m, n)) == Get(f, i, n) by {
        forall i, n | 0 <= i < |f.rows| && n in f.names
          ensures RenamedName(m, n) in g.names && Get(g, i, RenamedName(m, n)) == Get(f, i, n)
        {
          var k := IndexOf(f.names, n);
          IndexOfAt(names, k);
        }
      }
      Success(g)
  }

  /** `df[n] = g(df[n])`: one column rewritten cell by cell, nothing else touched. */
  function MapColumn(f: Frame, n: string, g: Cell -> Cell): (r: Frame)
    requires WellFormed(f) && n in f.names
    ensures WellFormed(r) && r.names == f.names && |r.rows| == |f.rows|
    ensures forall i, m | 0 <= i < |f.rows| && m in f.names ::
      Get(r, i, m) == if m == n then g(Get(f, i, n)) else Get(f, i, m)
  {
    var k := IndexOf(f.names, n);
    Frame(f.names, seq(|f.rows|, i requires 0 <= i < |f.rows| => f.rows[i][k := g(f.rows[i][k])]))
  }

  /** The column names after assigning column `n`. */
  function Added(names: seq<string>, n: string): (r: seq<string>)
    ensures n in r && forall m | m in names :: m in r
    ensures forall m | m in r :: m in names || m == n
  {
    if n in names then names else names + [n]
  }

  /**
   * `df[n] = c`: an existing column is overwritten in place, a new one is
   * appended as the last column; all other columns keep their values.
   */
  function Assign(f: Frame, n: string, c: seq<Cell>): (r: Frame)
    requires WellFormed(f) && |c| == |f.rows|
    ensures WellFormed(r) && |r.rows| == |f.rows|
    ensures r.names == Added(f.names, n)
    ensures forall i | 0 <= i < |f.rows| :: Get(r, i, n) == c[i]
    ensures forall i, m | 0 <= i < |f.rows| && m in f.names && m != n :: Get(r, i, m) == Get(f, i, m)
  {
    if n in f.names then
      var k := IndexOf(f.names, n);
      Frame(f.names, seq(|f.rows|, i requires 0 <= i < |f.rows| => f.rows[i][k := c[i]]))
    else
      var names := f.names + [n];
      var r := Frame(names, seq(|f.rows|, i requires 0 <= i < |f.rows| => f.rows[i] + [c[i]]));
      assert forall m | m in f.names :: IndexOf(names, m) == IndexOf(f.names, m) by {
        forall m | m in f.names ensures IndexOf(names, m) == IndexOf(f.names, m) {
          IndexOfAt(names, IndexOf(f.names, m));
        }
      }
      IndexOfAt(names, |f.names|);
      r
  }

  /**
   * `df[ns[0]] = cols[0]`, then `df[ns[1]] = cols[1]`, and so on: each
   * listed column holds its new values, every other column keeps its own,
   * and new names are appended in their order.
   */
  function AssignAll(f: Frame, ns: seq<string>, cols: seq<seq<Cell>>): (r: Frame)
    requires WellFormed(f) && Distinct(ns) && |cols| == |ns|
    requires forall k | 0 <= k < |cols| :: |cols[k]| == |f.rows|
    ensures WellFormed(r) && |r.rows| == |f.rows|
    ensures forall n | n in f.names :: n in r.names
    ensures forall n | n in r.names :: n in f.names || n in ns
    ensures (forall n | n in ns :: n !in f.names) ==> r.names == f.names + ns
    ensures forall n | n in ns :: n in r.names
    ensures forall i, k | 0 <= i < |f.rows| && 0 <= k < |ns| :: Get(r, i, ns[k]) == cols[k][i]
    ensures forall i, n | 0 <= i < |f.rows| && n in f.names && n !in ns :: Get(r, i, n) == Get(f, i, n)
    decreases |ns|
  {
    if ns == [] then f
    else
      var g := Assign(f, ns[0], cols[0]);
      assert Distinct(ns[1..]) by {
        forall a, b | 0 <= a < b < |ns[1..]| ensures ns[1..][a] != ns[1..][b] {
          assert ns[1..][a] == ns[a + 1] && ns[1..][b] == ns[b + 1];
        }
      }
      assert forall k | 0 <= k < |cols[1..]| :: cols[1..][k] == cols[k + 1];
      var r := AssignAll(g, ns[1..], cols[1..]);
      AssignedInTurn(f, ns, cols, g, r);
      r
  }

  /** The first assignment, then the others: what each step keeps adds up to the contract of `AssignAll`. */
  lemma AssignedInTurn(f: Frame, ns: seq<string>, cols: seq<seq<Cell>>, g: Frame, r: Frame)
    requires WellFormed(f) && Distinct(ns) && |cols| == |ns| > 0
    requires forall k | 0 <= k < |cols| :: |cols[k]| == |f.rows|
    requires WellFormed(g) && |g.rows| == |f.rows| && g.names == Added(f.names, ns[0])
    requires forall i | 0 <= i < |f.rows| :: Get(g, i, ns[0]) == cols[0][i]
    requires forall i, m | 0 <= i < |f.rows| && m in f.names && m != ns[0] :: Get(g, i, m) == Get(f, i, m)
    requires WellFormed(r) && |r.rows| == |f.rows|
    requires forall n | n in g.names :: n in r.names
    requires forall n | n in r.names :: n in g.names || n in ns[1..]
    requires (forall n | n in ns[1..] :: n !in g.names) ==> r.names == g.names + ns[1..]
    requires forall n | n in ns[1..] :: n in r.names
    requires forall i, k | 0 <= i < |f.rows| && 0 <= k < |ns[1..]| :: Get(r, i, ns[1..][k]) == cols[1..][k][i]
    requires forall i, n | 0 <= i < |f.rows| && n in g.names && n !in ns[1..] :: Get(r, i, n) == Get(g, i, n)
    ensures forall n | n in f.names :: n in r.names
    ensures forall n | n in r.names :: n in f.names || n in ns
    ensures (forall n | n in ns :: n !in f.names) ==> r.names == f.names + ns
    ensures forall n | n in ns :: n in r.names
    ensures forall i, k | 0 <= i < |f.rows| && 0 <= k < |ns| :: Get(r, i, ns[k]) == cols[k][i]
    ensures forall i, n | 0 <= i < |f.rows| && n in f.names && n !in ns :: Get(r, i, n) == Get(f, i, n)
  {
    assert ns[0] !in ns[1..] by {
      forall k | 0 <= k < |ns[1..]| ensures ns[1..][k] != ns[0] {
        assert ns[1..][k] == ns[k + 1];
      }
    }
    assert forall k | 1 <= k < |ns| :: ns[k] == ns[1..][k - 1];
    forall i, k | 0 <= i < |f.rows| && 0 <= k < |ns|
      ensures Get(r, i, ns[k]) == cols[k][i]
    {
      if k > 0 {
        assert ns[k] == ns[1..][k - 1] && cols[k] == cols[1..][k - 1];
      } else {
        assert ns[0] in g.names;
        assert Get(r, i, ns[0]) == Get(g, i, ns[0]);
      }
    }
    if forall n | n in ns :: n !in f.names {
      assert g.names == f.names + [ns[0]];
      assert forall n | n in ns[1..] :: n !in g.names;
      assert f.names + [ns[0]] + ns[1..] == f.names + ns;
    }
  }

  /** The first name of `ns` that is not a column, if any. */
  function FirstMissing(ns: seq<string>, names: seq<string>): (r: Option<string>)
    ensures r.None? <==> forall n | n in ns :: n in names
    ensures r.Some? ==> r.value in ns && r.value !in names
  {
    if ns == [] then None
    else if ns[0] !in names then Some(ns[0])
    else FirstMissing(ns[1..], names)
  }

  /**
   * `df[ns]`: a frame with exactly the columns `ns`, in that order, and the
   * same rows; a KeyError when one of them is missing.
   */
  function Select(f: Frame, ns: seq<string>): (r: Result<Frame, Fault>)
    requires WellFormed(f) && Distinct(ns)
    ensures r.Success? <==> forall n | n in ns :: n in f.names
    ensures r.Failure? ==> r.error.MissingColumn? && r.error.column in ns && r.error.column !in f.names
    ensures r.Success? ==> WellFormed(r.value) && r.value.names == ns && |r.value.rows| == |f.rows|
    ensures r.Success? ==> forall i, n | 0 <= i < |f.rows| && n in ns :: Get(r.value, i, n) == Get(f, i, n)
  {
    match FirstMissing(ns, f.names)
    case Some(n) => Failure(MissingColumn(n))
    case None =>
      Success(Frame(ns, seq(|f.rows|, i requires 0 <= i < |f.rows| =>
        seq(|ns|, j requires 0 <= j < |ns| => Get(f, i, ns[j])))))
  }

  /**
   * `df.drop(columns=[n])`: the column is removed, the others keep their
   * order and values; a KeyError when it is missing.
   */
  function DropColumn(f: Frame, n: string): (r: Result<Frame, Fault>)
    requires WellFormed(f)
    ensures r.Success? <==> n in f.names
    ensures r.Failure? ==> r.error == MissingColumn(n)
    ensures r.Success? ==> var k := IndexOf(f.names, n);
      WellFormed(r.value) && r.value.names == f.names[..k] + f.names[k + 1..] && |r.value.rows| == |f.rows|
    ensures r.Success? ==> n !in r.value.names
    ensures r.Success? ==> forall i, m | 0 <= i < |f.rows| && m in f.names && m != n ::
      m in r.value.names && Get(r.value, i, m) == Get(f, i, m)
  {
    if n !in f.names then Failure(MissingColumn(n))
    else
      var k := IndexOf(f.names, n);
      var g := Frame(f.names[..k] + f.names[k + 1..],
                     seq(|f.rows|, i requires 0 <= i < |f.rows| => f.rows[i][..k] + f.rows[i][k + 1..]));
      DropColumnFacts(f, k, g);
      Success(g)
  }

  lemma DropColumnFacts(f: Frame, k: nat, g: Frame)
    requires WellFormed(f) && k < |f.names|
    requires g.names == f.names[..k] + f.names[k + 1..]
    requires |g.rows| == |f.rows| && forall i | 0 <= i < |f.rows| :: g.rows[i] == f.rows[i][..k] + f.rows[i][k + 1..]
    ensures WellFormed(g) && f.names[k] !in g.names
    ensures forall i, m | 0 <= i < |f.rows| && m in f.names && m != f.names[k] ::
      m in g.names && Get(g, i, m) == Get(f, i, m)
  {
    DroppedNames(f.names, k);
    forall i, m | 0 <= i < |f.rows| && m in f.names && m != f.names[k]
      ensures m in g.names && Get(g, i, m) == Get(f, i, m)
    {
      var j := IndexOf(f.names, m);
      var j' := if j < k then j else j - 1;
      DroppedCell(f.names, f.rows[i], k, j, g.names, g.rows[i]);
    }
  }

  /** The cell of a kept column sits one place earlier past the dropped position. */
  lemma DroppedCell(names: seq<string>, row: seq<Cell>, k: nat, j: nat, names': seq<string>, row': seq<Cell>)
    requires Distinct(names) && |row| == |names| && k < |names| && j < |names| && j != k
    requires names' == names[..k] + names[k + 1..] && row' == row[..k] + row[k + 1..]
    requires Distinct(names')
    ensures names[j] in names' && At(names', row', names[j]) == row[j]
  {
    var j' := if j < k then j else j - 1;
    assert names'[j'] == names[j] && row'[j'] == row[j];
    IndexOfAt(names', j');
  }

  /** Dropping position `k` of distinct names keeps them distinct and shifts the later ones down by one. */
  lemma DroppedNames(names: seq<string>, k: nat)
    requires Distinct(names) && k < |names|
    ensures var d := names[..k] + names[k + 1..];
      && Distinct(d) && names[k] !in d
      && forall j | 0 <= j < |names| && j != k :: d[if j < k then j else j - 1] == names[j]
  {
    var d := names[..k] + names[k + 1..];
    assert forall j | 0 <= j < |d| :: d[j] == names[if j < k then j else j + 1];
  }

  // ---------------------------------------------------------------------------
  // Row operations

  /**
   * The positions, from `from` on and in increasing order, of the rows that
   * `keep` accepts: every accepted row is listed and no other.
   */
  function KeptFrom(rows: seq<seq<Cell>>, keep: seq<Cell> -> bool, from: nat): (ks: seq<nat>)
    requires from <= |rows|
    ensures |ks| <= |rows| - from
    ensures forall a, b | 0 <= a < b < |ks| :: ks[a] < ks[b]
    ensures forall j | 0 <= j < |ks| :: from <= ks[j] < |rows| && keep(rows[ks[j]])
    ensures forall i | from <= i < |rows| && keep(rows[i]) :: i in ks
    decreases |rows| - from
  {
    if from == |rows| then []
    else (if keep(rows[from]) then [from] else []) + KeptFrom(rows, keep, from + 1)
  }

  function Kept(rows: seq<seq<Cell>>, keep: seq<Cell> -> bool): seq<nat> {
    KeptFrom(rows, keep, 0)
  }

  /** A boolean row filter: the accepted rows, in their original order. */
  function Where(f: Frame, keep: seq<Cell> -> bool): (r: Frame)
    requires WellFormed(f)
    ensures WellFormed(r) && r.names == f.names
    ensures var ks := Kept(f.rows, keep);
      |r.rows| == |ks| && forall j | 0 <= j < |ks| :: r.rows[j] == f.rows[ks[j]]
  {
    var ks := Kept(f.rows, keep);
    Frame(f.names, seq(|ks|, j requires 0 <= j < |ks| => f.rows[ks[j]]))
  }

  /** A row has a value (not NaN) at each of the positions `ks`. */
  predicate Complete(row: seq<Cell>, ks: seq<nat>) {
    forall j | 0 <= j < |ks| :: ks[j] < |row| ==> !row[ks[j]].NaN?
  }

  function Positions(names: seq<string>, ns: seq<string>): (ks: seq<nat>)
    requires forall n | n in ns :: n in names
    ensures |ks| == |ns| && forall j | 0 <= j < |ns| :: ks[j] == IndexOf(names, ns[j])
  {
    seq(|ns|, j requires 0 <= j < |ns| => IndexOf(names, ns[j]))
  }

  /** Row `i` has a value in every column of `ns`. */
  predicate HasValues(f: Frame, i: int, ns: seq<string>)
    requires WellFormed(f) && 0 <= i < |f.rows| && forall n | n in ns :: n in f.names
  {
    forall n | n in ns :: !Get(f, i, n).NaN?
  }

  /**
   * `df.dropna(subset=ns)`: exactly the rows with a value in every column of
   * `ns` survive, in their original order; a KeyError when a column is missing.
   */
  function DropNa(f: Frame, ns: seq<string>): (r: Result<Frame, Fault>)
    requires WellFormed(f)
    ensures r.Success? <==> forall n | n in ns :: n in f.names
    ensures r.Failure? ==> r.error.MissingColumn? && r.error.column !in f.names
    ensures r.Success? ==> WellFormed(r.value) && r.value.names == f.names
    ensures r.Success? ==> var ks := Kept(f.rows, row => Complete(row, Positions(f.names, ns)));
      && |r.value.rows| == |ks|
      && (forall j | 0 <= j < |ks| :: r.value.rows[j] == f.rows[ks[j]])
      && (forall i | 0 <= i < |f.rows| :: i in ks <==> HasValues(f, i, ns))
  {
    match FirstMissing(ns, f.names)
    case Some(n) => Failure(MissingColumn(n))
    case None =>
      var ps := Positions(f.names, ns);
      var keep := row => Complete(row, ps);
      var ks := Kept(f.rows, keep);
      assert forall i | 0 <= i < |f.rows| :: keep(f.rows[i]) <==> HasValues(f, i, ns) by {
        forall i | 0 <= i < |f.rows| ensures keep(f.rows[i]) <==> HasValues(f, i, ns) {
          if HasValues(f, i, ns) {
            forall j | 0 <= j < |ps| ensures !f.rows[i][ps[j]].NaN? {
              assert ns[j] in ns;
            }
          }
          if Complete(f.rows[i], ps) {
            forall n | n in ns ensures !Get(f, i, n).NaN? {
              var j := IndexOf(ns, n);
              assert ps[j] == IndexOf(f.names, n);
            }
          }
        }
      }
      Success(Where(f, keep))
  }

  /** `df.drop(0).reset_index(drop=True)`: the first row removed, the others in order. */
  function DropFirstRow(f: Frame): (r: Frame)
    requires WellFormed(f) && |f.rows| > 0
    ensures WellFormed(r) && r.names == f.names && r.rows == f.rows[1..]
  {
    Frame(f.names, f.rows[1..])
  }

  // ---------------------------------------------------------------------------
  // Numeric conversion and imputation

  /** `pd.to_numeric(..., errors='coerce')` on one cell: numbers stay, anything else is NaN. */
  function ToNumeric(c: Cell): (r: Cell)
    ensures !r.Text?
    ensures c.Num? ==> r == c
    ensures !c.Num? ==> r == NaN
  {
    if c.Num? then c else NaN
  }

  /** The number of numeric cells. */
  function NumCount(c: seq<Cell>): nat {
    if c == [] then 0 else (if c[0].Num? then 1 else 0) + NumCount(c[1..])
  }

  /** A column has numbers to count exactly when one of its cells is a number. */
  lemma {:induction false} NumCountPositive(c: seq<Cell>)
    ensures NumCount(c) > 0 <==> exists i | 0 <= i < |c| :: c[i].Num?
  {
    if c != [] {
      NumCountPositive(c[1..]);
      if exists i | 0 <= i < |c| - 1 :: c[1..][i].Num? {
        var i :| 0 <= i < |c| - 1 && c[1..][i].Num?;
        assert c[i + 1].Num?;
      }
      if exists i | 0 <= i < |c| :: c[i].Num? {
        var i :| 0 <= i < |c| && c[i].Num?;
        if i > 0 {
          assert c[1..][i - 1].Num?;
        }
      }
    }
  }

  /** The sum of the numeric cells, NaN skipped. */
  function NumSum(c: seq<Cell>): real {
    if c == [] then 0.0 else (if c[0].Num? then c[0].value else 0.0) + NumSum(c[1..])
  }

  /** A column pandas keeps a numeric dtype for: it holds no text. */
  predicate NumericColumn(c: seq<Cell>) {
    forall i | 0 <= i < |c| :: !c[i].Text?
  }

  /**
   * `df.mean(numeric_only=True)` for one column: the average of its numbers,
   * or none for a text column or a column without a number.
   */
  function ColumnMean(c: seq<Cell>): (m: Option<real>)
    ensures m.Some? <==> NumericColumn(c) && NumCount(c) > 0
    ensures m.Some? ==> m.value == NumSum(c) / (NumCount(c) as real)
  {
    if NumericColumn(c) && NumCount(c) > 0 then Some(NumSum(c) / (NumCount(c) as real)) else None
  }

  function Impute(x: Cell, mean: Option<real>): Cell {
    if x.NaN? && mean.Some? then Num(mean.value) else x
  }

  /**
   * `df.fillna(df.mean(numeric_only=True))`: in every numeric column with a
   * number, each NaN becomes the column's mean; everything else is unchanged.
   * A column counts as numeric when it holds no text, except the columns in
   * `objects`, whose dtype is `object` whatever they hold now.
   */
  function FillNaMeans(f: Frame, objects: seq<string>): (r: Frame)
    requires WellFormed(f)
    ensures WellFormed(r) && r.names == f.names && |r.rows| == |f.rows|
    ensures forall i, n | 0 <= i < |f.rows| && n in f.names && n in objects :: Get(r, i, n) == Get(f, i, n)
    ensures forall i, n | 0 <= i < |f.rows| && n in f.names && n !in objects ::
      Get(r, i, n) == Impute(Get(f, i, n), ColumnMean(Column(f, n)))
  {
    var means := seq(|f.names|, k requires 0 <= k < |f.names| =>
      if f.names[k] in objects then None else ColumnMean(Column(f, f.names[k])));
    Frame(f.names, seq(|f.rows|, i requires 0 <= i < |f.rows| =>
      seq(|f.names|, k requires 0 <= k < |f.names| => Impute(f.rows[i][k], means[k]))))
  }

  lemma {:induction false} SumBounds(c: seq<Cell>, lo: real, hi: real)
    requires forall i | 0 <= i < |c| && c[i].Num? :: lo <= c[i].value <= hi
    ensures lo * (NumCount(c) as real) <= NumSum(c) <= hi * (NumCount(c) as real)
  {
    if c != [] {
      SumBounds(c[1..], lo, hi);
    }
  }

  /** The mean that fills a gap lies between the smallest and the largest number of its column. */
  lemma MeanWithinRange(c: seq<Cell>, lo: real, hi: real)
    requires forall i | 0 <= i < |c| && c[i].Num? :: lo <= c[i].value <= hi
    requires ColumnMean(c).Some?
    ensures lo <= ColumnMean(c).value <= hi
  {
    SumBounds(c, lo, hi);
    QuotientBounds(NumSum(c), NumCount(c) as real, lo, hi);
  }

  lemma QuotientBounds(s: real, n: real, lo: real, hi: real)
    requires n > 0.0 && lo * n <= s <= hi * n
    ensures lo <= s / n <= hi
  {
    var q := s / n;
    assert q * n == s;
    assert (q - lo) * n >= 0.0;
    assert (hi - q) * n >= 0.0;
  }
}
