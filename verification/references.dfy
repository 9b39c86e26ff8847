/**
 The reference demo of References/main.cpp. Memory is a sequence of `int`
 cells; a reference is the index of the cell it is bound to, fixed when the
 reference is declared, so assigning through it writes that cell.
 */
module References {
  import opened Int32

  type Memory = seq<int32>

  /** `ref = value` for a reference bound to cell `loc`. */
  function Assign(mem: Memory, loc: nat, value: int32): (r: Memory)
    requires loc < |mem|
    ensures |r| == |mem| && r[loc] == value
    ensures forall k :: 0 <= k < |mem| && k != loc ==> r[k] == mem[k]
  {
    mem[loc := value]
  }

  /**
   `swap(a, b)` for references bound to cells `a` and `b`, step by step:
   `temp = a; a = b; b = temp`. The two may be the same cell.
   */
  function Swap(mem: Memory, a: nat, b: nat): (r: Memory)
    requires a < |mem| && b < |mem|
    ensures |r| == |mem|
    ensures r[a] == mem[b] && r[b] == mem[a]
    ensures forall k :: 0 <= k < |mem| && k != a && k != b ==> r[k] == mem[k]
  {
    var temp := mem[a];
    var afterFirst := Assign(mem, a, mem[b]);
    Assign(afterFirst, b, temp)
  }

  /** `swap` on an array, the cells standing for the two referenced variables. */
  method SwapCells(arr: array<int32>, a: nat, b: nat)
    requires a < arr.Length && b < arr.Length
    modifies arr
    ensures arr[..] == Swap(old(arr[..]), a, b)
  {
    var temp := arr[a];
    arr[a] := arr[b];
    arr[b] := temp;
  }

  /** Swapping twice restores memory. */
  lemma SwapInvolutive(mem: Memory, a: nat, b: nat)
    requires a < |mem| && b < |mem|
    ensures Swap(Swap(mem, a, b), a, b) == mem
  {
  }

  /** Swapping a cell with itself leaves memory unchanged. */
  lemma SwapSelf(mem: Memory, a: nat)
    requires a < |mem|
    ensures Swap(mem, a, a) == mem
  {
  }

  /** The order of the arguments does not matter. */
  lemma SwapSymmetric(mem: Memory, a: nat, b: nat)
    requires a < |mem| && b < |mem|
    ensures Swap(mem, a, b) == Swap(mem, b, a)
  {
  }

  /** `swap` only rearranges values: memory holds the same multiset of values. */
  lemma SwapPermutes(mem: Memory, a: nat, b: nat)
    requires a < |mem| && b < |mem|
    ensures multiset(Swap(mem, a, b)) == multiset(mem)
  {
    var afterFirst := mem[a := mem[b]];
    assert multiset(afterFirst) == multiset(mem) - multiset{mem[a]} + multiset{mem[b]};
  }

  /** `ref = y` copies the value of `y` into the referenced cell and leaves `y` alone. */
  lemma AssignCopiesValue(mem: Memory, x: nat, y: nat)
    requires x < |mem| && y < |mem|
    ensures Assign(mem, x, mem[y])[x] == mem[y]
    ensures Assign(mem, x, mem[y])[y] == mem[y]
  {
  }

  /** Cells of `x` and `y` in `main`. */
  const X: nat := 0
  const Y: nat := 1

  /**
   The steps of `main`: with `x == 10` and `y == 20`, `ref` is bound to `x`;
   `ref = 50` makes `x` 50; `ref = y` makes `x` 20 and keeps `y`; then
   `swap(x, y)` exchanges two equal values.
   */
  lemma MainScenario()
    ensures var start: Memory := [10, 20];
            var afterFifty := Assign(start, X, 50);
            var afterCopy := Assign(afterFifty, X, afterFifty[Y]);
            afterFifty == [50, 20] && afterCopy == [20, 20] && Swap(afterCopy, X, Y) == [20, 20]
  {
  }
}
