/** Row-major tables, as the std::vector matrices of src/correlation.cpp. */
module Matrix {
  import opened Complex
  import opened Modular

  /** The flat position of (i, j) in rows of the given width; also the lane
      number r * Nt + t of an antenna pair. */
  function Cell(width: nat, i: nat, j: nat): (c: nat)
    requires j < width
  {
    i * width + j
  }

  lemma {:induction false} CellBound(height: nat, width: nat, i: nat, j: nat)
    requires i < height && j < width
    ensures Cell(width, i, j) < height * width
  {
    MulMonotone(i + 1, height, width);
  }

  lemma {:induction false} CellInjective(width: nat, i: nat, j: nat, k: nat, l: nat)
    requires j < width && l < width && Cell(width, i, j) == Cell(width, k, l)
    ensures i == k && j == l
  {
    DivModUnique(Cell(width, i, j), i, j, width);
    DivModUnique(Cell(width, i, j), k, l, width);
  }

  /** Every flat position is the position of one pair. */
  lemma {:induction false} CellOnto(height: nat, width: nat, c: nat) returns (i: nat, j: nat)
    requires c < height * width
    ensures i < height && j < width && c == Cell(width, i, j)
  {
    i, j := Quot(c, width), Wrap(c, width);
    QuotWrap(c, width);
    if i >= height {
      MulMonotone(height, i, width);
    }
  }

  function At(m: seq<Cx>, n: nat, i: nat, j: nat): Cx
    requires |m| == n * n && i < n && j < n
  {
    CellBound(n, n, i, j);
    m[Cell(n, i, j)]
  }

  function Put(m: seq<Cx>, n: nat, i: nat, j: nat, value: Cx): (r: seq<Cx>)
    requires |m| == n * n && i < n && j < n
    ensures |r| == n * n
  {
    CellBound(n, n, i, j);
    m[Cell(n, i, j) := value]
  }

  lemma {:induction false} PutAt(m: seq<Cx>, n: nat, i: nat, j: nat, value: Cx)
    requires |m| == n * n && i < n && j < n
    ensures forall k: nat, l: nat :: k < n && l < n ==>
              At(Put(m, n, i, j, value), n, k, l) == if k == i && l == j then value else At(m, n, k, l)
  {
    forall k: nat, l: nat | k < n && l < n
      ensures At(Put(m, n, i, j, value), n, k, l) == if k == i && l == j then value else At(m, n, k, l)
    {
      CellBound(n, n, i, j);
      CellBound(n, n, k, l);
      if Cell(n, i, j) == Cell(n, k, l) {
        CellInjective(n, i, j, k, l);
      }
    }
  }

  function Blank(n: nat): (m: seq<Cx>)
    ensures |m| == n * n && forall i: nat, j: nat :: i < n && j < n ==> At(m, n, i, j) == ZERO
  {
    var m := seq(n * n, (_: nat) => ZERO);
    assert forall i: nat, j: nat :: i < n && j < n ==> At(m, n, i, j) == ZERO by {
      forall i: nat, j: nat | i < n && j < n
        ensures At(m, n, i, j) == ZERO
      {
        CellBound(n, n, i, j);
      }
    }
    m
  }

  /** The table as a function of its two indices. */
  ghost function Entries(m: seq<Cx>, n: nat): (nat, nat) -> Cx
    requires |m| == n * n
  {
    (i: nat, j: nat) => if i < n && j < n then At(m, n, i, j) else ZERO
  }

  ghost predicate Hermitian(e: (nat, nat) -> Cx, n: nat)
  {
    forall i: nat, j: nat :: i < n && j < n ==> e(i, j) == e(j, i).Conj()
  }
}
