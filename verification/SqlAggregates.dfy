/**
 The SQL aggregate functions that the retention queries use, on exact numbers. A cell is a number or NULL;
 aggregates skip NULL cells and give NULL when there is nothing left.
 */
module SqlAggregates {
  import opened Wrappers

  type Cell = Option<real>

  datatype Op = Add | Least | Greatest

  function Join(op: Op, a: Cell, b: Cell): Cell {
    if a.None? then b
    else if b.None? then a
    else match op
      case Add => Some(a.value + b.value)
      case Least => Some(if a.value <= b.value then a.value else b.value)
      case Greatest => Some(if a.value >= b.value then a.value else b.value)
  }

  /** SUM, MIN and MAX of a column. */
  function Fold(op: Op, cells: seq<Cell>): Cell {
    if cells == [] then None else Join(op, cells[0], Fold(op, cells[1..]))
  }

  /** COUNT of a column: its non-NULL cells. */
  function NonNull(cells: seq<Cell>): (n: nat)
    ensures n <= |cells|
  {
    if cells == [] then 0 else (if cells[0].Some? then 1 else 0) + NonNull(cells[1..])
  }

  /** AVG of a column. */
  function Average(cells: seq<Cell>): Cell {
    var sum := Fold(Add, cells);
    if sum.None? || NonNull(cells) == 0 then None else Some(sum.value / NonNull(cells) as real)
  }

  function Product(a: real, b: real): real {
    a * b
  }

  function Times(a: Cell, b: Cell): Cell {
    if a.None? || b.None? then None else Some(Product(a.value, b.value))
  }

  /** a / NULLIF(b, 0) */
  function Over(a: Cell, b: Cell): Cell {
    if a.None? || b.None? || b.value == 0.0 then None else Some(a.value / b.value)
  }

  lemma JoinAssociates(op: Op, a: Cell, b: Cell, c: Cell)
    ensures Join(op, Join(op, a, b), c) == Join(op, a, Join(op, b, c))
  {
  }

  lemma JoinCommutes(op: Op, a: Cell, b: Cell)
    ensures Join(op, a, b) == Join(op, b, a)
  {
  }

  /** Aggregates are homomorphisms: a column may be aggregated in pieces. */
  lemma {:induction false} FoldAppend(op: Op, a: seq<Cell>, b: seq<Cell>)
    ensures Fold(op, a + b) == Join(op, Fold(op, a), Fold(op, b))
  {
    if a == [] {
      assert a + b == b;
    } else {
      assert (a + b)[0] == a[0] && (a + b)[1..] == a[1..] + b;
      FoldAppend(op, a[1..], b);
      JoinAssociates(op, a[0], Fold(op, a[1..]), Fold(op, b));
    }
  }

  /** The minimum and the maximum are values of the column that no other value lies beyond. */
  lemma {:induction false} ExtremesAre(cells: seq<Cell>)
    ensures var (least, greatest) := (Fold(Least, cells), Fold(Greatest, cells));
      && (least.None? <==> forall c | c in cells :: c.None?)
      && (least.Some? ==> least in cells && forall c | c in cells && c.Some? :: least.value <= c.value)
      && (greatest.None? <==> forall c | c in cells :: c.None?)
      && (greatest.Some? ==> greatest in cells && forall c | c in cells && c.Some? :: c.value <= greatest.value)
  {
    if cells != [] {
      ExtremesAre(cells[1..]);
      assert cells[0] in cells && forall c | c in cells :: c == cells[0] || c in cells[1..];
      assert forall c | c in cells[1..] :: c in cells;
    }
  }

  /** The sum of a column is NULL exactly if all its cells are. */
  lemma {:induction false} SumIsNullIff(cells: seq<Cell>)
    ensures Fold(Add, cells).None? <==> NonNull(cells) == 0
  {
    if cells != [] {
      SumIsNullIff(cells[1..]);
    }
  }

  lemma {:induction false} NonNullAppend(a: seq<Cell>, b: seq<Cell>)
    ensures NonNull(a + b) == NonNull(a) + NonNull(b)
  {
    if a == [] {
      assert a + b == b;
    } else {
      assert (a + b)[0] == a[0] && (a + b)[1..] == a[1..] + b;
      NonNullAppend(a[1..], b);
    }
  }

  /** An average times its own count of values is the sum again. */
  lemma AverageTimesCount(cells: seq<Cell>)
    ensures Times(Average(cells), Some(NonNull(cells) as real)) == Fold(Add, cells)
  {
    SumIsNullIff(cells);
    if NonNull(cells) != 0 {
      Undivide(Fold(Add, cells).value, NonNull(cells) as real);
    }
  }

  lemma Undivide(s: real, n: real)
    requires n != 0.0
    ensures Product(s / n, n) == s
  {
  }
}
