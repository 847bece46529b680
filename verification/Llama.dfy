/** The llama converter: attention rows are re-interleaved head by head, and the llama3
    rope factors are computed from the wavelengths. */
module Llama {
  import opened Basics
  import opened Arith
  import opened RowMajor

  // ---------------------------------------------------------------- repacking, on values

  const SWAP_MIDDLE: seq<nat> := [0, 2, 1, 3]

  /** View the rows as a by b by c, exchange the last two of these, and flatten again. */
  function Interchanged<T>(t: Tensor<T>, a: nat, b: nat, c: nat): (r: Result<Tensor<T>>)
    requires t.Wf() && t.shape != []
  {
    var split :- Reshape(t, [a, b, c] + t.shape[1..]);
    var swapped :- Permute(split, SWAP_MIDDLE);
    Reshape(swapped, t.shape)
  }

  /** Half the rows of one head, as the code divides. */
  function HalfRows(rows: nat, heads: nat): nat
    requires heads > 0
  {
    rows / heads / 2
  }

  /** What `repack` makes of a tensor for a given number of heads. */
  function Repacked<T>(t: Tensor<T>, heads: nat): (r: Result<Tensor<T>>)
    requires t.Wf()
  {
    if heads == 0 || t.shape == [] then Err("division by zero or no dimension")
    else Interchanged(t, heads, 2, HalfRows(t.shape[0], heads))
  }

  /** The same with the two inner extents exchanged. */
  function Unpacked<T>(t: Tensor<T>, heads: nat): (r: Result<Tensor<T>>)
    requires t.Wf()
  {
    if heads == 0 || t.shape == [] then Err("division by zero or no dimension")
    else Interchanged(t, heads, HalfRows(t.shape[0], heads), 2)
  }

  lemma SwapMiddlePermutes(rank: nat)
    ensures Permutes(SWAP_MIDDLE, rank) <==> rank == 4
  {
    if rank == 4 {
      forall p: nat | p < 4 ensures p in SWAP_MIDDLE {
        assert SWAP_MIDDLE[0] == 0 && SWAP_MIDDLE[1] == 2 && SWAP_MIDDLE[2] == 1 && SWAP_MIDDLE[3] == 3;
      }
    }
  }

  lemma SwapMiddleIndex(idx: Index)
    requires |idx| == 4
    ensures Permutes(SWAP_MIDDLE, 4)
    ensures Unpermuted(SWAP_MIDDLE, idx) == [idx[0], idx[2], idx[1], idx[3]]
  {
    SwapMiddlePermutes(4);
    var s := Unpermuted(SWAP_MIDDLE, idx);
    assert s[SWAP_MIDDLE[0]] == idx[0] && s[SWAP_MIDDLE[1]] == idx[1]
        && s[SWAP_MIDDLE[2]] == idx[2] && s[SWAP_MIDDLE[3]] == idx[3];
  }

  lemma Size2(a: nat, b: nat)
    ensures Size([a, b]) == Times(a, b)
  {
    hide Times, Size;
    assert [a, b] == [a] + [b];
    SizeAppend([a], [b]);
    Size1(a);
    Size1(b);
  }

  lemma Size3(a: nat, b: nat, c: nat)
    ensures Size([a, b, c]) == Times(a, Times(b, c))
  {
    hide Times, Size;
    assert [a, b, c] == [a] + [b, c];
    SizeAppend([a], [b, c]);
    Size1(a);
    Size2(b, c);
  }

  lemma Flat3(shape: Shape, i: nat, j: nat, k: nat)
    requires |shape| == 3 && Within(shape, [i, j, k])
    ensures Flat(shape, [i, j, k]) == Times(i, Times(shape[1], shape[2])) + (Times(j, shape[2]) + k)
  {
    hide Times, Size, Flat;
    assert shape == [shape[0]] + ([shape[1]] + [shape[2]]) && [i, j, k] == [i] + ([j] + [k]);
    Flat1(shape[0], i);
    Flat1(shape[1], j);
    Flat1(shape[2], k);
    FlatAppend([shape[1]], [j], [shape[2]], [k]);
    FlatAppend([shape[0]], [i], [shape[1]] + [shape[2]], [j] + [k]);
    Size1(shape[2]);
    assert [shape[1]] + [shape[2]] == [shape[1], shape[2]];
    Size2(shape[1], shape[2]);
  }

  lemma SameHeadSize(heads: nat, m: nat)
    ensures Size([heads, 2, m]) == Size([heads, m, 2]) == Times(heads, 2 * m)
  {
    hide Size;
    Size3(heads, 2, m);
    Size3(heads, m, 2);
    Commute(m, 2);
    assert Times(2, m) == 2 * m;
  }

  /** Halving a head's rows loses nothing exactly when two per head divide the row count. */
  lemma HalfHead(rows: nat, heads: nat)
    requires heads > 0
    ensures Times(heads, 2 * HalfRows(rows, heads)) <= rows
    ensures Times(heads, 2 * HalfRows(rows, heads)) == rows <==> rows % (2 * heads) == 0
  {
    var q, m := Quot(rows, heads), HalfRows(rows, heads);
    var e := q % 2;
    var rest := (if e == 0 then 0 else heads) + Rem(rows, heads);
    assert q == 2 * m + e && rows % (2 * heads) == Rem(rows, 2 * heads);
    HalfHeadProducts(rows, heads, q, m, e);
    Recover(m, rest, 2 * heads);
  }

  lemma HalfHeadProducts(rows: nat, heads: nat, q: nat, m: nat, e: nat)
    requires heads > 0 && q == Quot(rows, heads) && q == 2 * m + e && e < 2
    ensures Times(heads, 2 * m) == Times(m, 2 * heads)
    ensures rows == Times(m, 2 * heads) + ((if e == 0 then 0 else heads) + Rem(rows, heads))
    ensures Rem(rows, heads) < heads
  {
    hide Times, Quot, Rem;
    Recompose(rows, heads);
    Distribute(2 * m, e, heads);
    Units(heads);
    Commute(heads, 2 * m);
    Doubled(m, heads);
  }

  lemma Doubled(m: nat, h: nat)
    ensures Times(2 * m, h) == Times(m, 2 * h)
  {
  }

  /** The row extents of the split tensor: `whole` stands for [heads, 2, m] or [heads, m, 2]. */
  lemma SplitSizes(rows: nat, heads: nat, whole: Shape, tail: Shape)
    requires heads > 0 && Size(whole) == Times(heads, 2 * HalfRows(rows, heads))
    ensures Size(whole + tail) == Size([rows] + tail) <==> rows % (2 * heads) == 0 || Size(tail) == 0
  {
    hide Times, Size;
    SizeAppend(whole, tail);
    SizeAppend([rows], tail);
    Size1(rows);
    HalfHead(rows, heads);
    Cancel(Size(whole), rows, Size(tail));
  }

  /** The reshape check passes exactly for a matrix whose row count 2 * heads divides (or
      whose rows are empty). */
  lemma RepackAccepts<T>(t: Tensor<T>, heads: nat)
    requires t.Wf()
    ensures Repacked(t, heads).Ok? <==>
            heads > 0 && |t.shape| == 2 && (t.shape[0] % (2 * heads) == 0 || t.shape[1] == 0)
  {
    hide Times, Size;
    if heads > 0 && t.shape != [] {
      var m, tail := HalfRows(t.shape[0], heads), t.shape[1..];
      assert t.shape == [t.shape[0]] + tail;
      SameHeadSize(heads, m);
      SplitSizes(t.shape[0], heads, [heads, 2, m], tail);
      SplitSizes(t.shape[0], heads, [heads, m, 2], tail);
      SwapMiddlePermutes(3 + |tail|);
      if |t.shape| == 2 {
        assert tail == [t.shape[1]];
        Size1(t.shape[1]);
        SwappedShape(Tensor([heads, 2, m] + tail, t.data), heads, 2, m, tail);
      }
    }
  }

  lemma SwappedShape<T>(t: Tensor<T>, a: nat, b: nat, c: nat, tail: Shape)
    requires |tail| == 1 && t.shape == [a, b, c] + tail
    ensures t.Wf() ==> Permute(t, SWAP_MIDDLE).Ok? && Permute(t, SWAP_MIDDLE).value.shape == [a, c, b] + tail
  {
    SwapMiddlePermutes(4);
    if t.Wf() {
      var s := Permute(t, SWAP_MIDDLE).value.shape;
      assert s[0] == t.shape[SWAP_MIDDLE[0]] && s[1] == t.shape[SWAP_MIDDLE[1]]
          && s[2] == t.shape[SWAP_MIDDLE[2]] && s[3] == t.shape[SWAP_MIDDLE[3]];
    }
  }

  /** Swapping the middle axes moves each element to the index with those two exchanged. */
  lemma SwapMoves<T>(t: Tensor<T>, s: Tensor<T>, idx: Index)
    requires t.Wf() && |t.shape| == 4 && Within(t.shape, idx) && Permute(t, SWAP_MIDDLE) == Ok(s)
    ensures s.shape == [t.shape[0], t.shape[2], t.shape[1], t.shape[3]]
    ensures s.Wf() && Within(s.shape, [idx[0], idx[2], idx[1], idx[3]])
    ensures s.At([idx[0], idx[2], idx[1], idx[3]]) == t.At(idx)
  {
    var to := [idx[0], idx[2], idx[1], idx[3]];
    SwappedShape(t, t.shape[0], t.shape[1], t.shape[2], [t.shape[3]]);
    SwapMiddleIndex(to);
    PermuteAt(t, SWAP_MIDDLE, s, to);
    assert idx == [to[0], to[2], to[1], to[3]];
  }

  /** Row that source row `r` moves to: seen as [head, half, place], the last two trade order. */
  function Destination(heads: nat, m: nat, r: nat): (d: nat)
    requires r < Size([heads, 2, m])
  {
    var i := Unflat([heads, 2, m], r);
    Flat([heads, m, 2], [i[0], i[2], i[1]])
  }

  /** Row that destination row `r` comes from. */
  function Source(heads: nat, m: nat, r: nat): (s: nat)
    requires r < Size([heads, m, 2])
  {
    var i := Unflat([heads, m, 2], r);
    Flat([heads, 2, m], [i[0], i[2], i[1]])
  }

  lemma DestinationIsBijective(heads: nat, m: nat, r: nat)
    requires r < Size([heads, 2, m])
    ensures Size([heads, 2, m]) == Size([heads, m, 2])
    ensures Destination(heads, m, r) < Size([heads, 2, m]) && Source(heads, m, r) < Size([heads, 2, m])
    ensures Source(heads, m, Destination(heads, m, r)) == r
    ensures Destination(heads, m, Source(heads, m, r)) == r
  {
    hide Times, Size, Flat, Unflat;
    SameHeadSize(heads, m);
    var i, j := Unflat([heads, 2, m], r), Unflat([heads, m, 2], r);
    UnflatFlat([heads, m, 2], [i[0], i[2], i[1]]);
    UnflatFlat([heads, 2, m], [j[0], j[2], j[1]]);
    assert i == [i[0], i[1], i[2]] && j == [j[0], j[1], j[2]];
  }

  /** In numbers: row h*dk + a*(dk/2) + b goes to row h*dk + 2*b + a, where dk = 2*m. */
  lemma DestinationFormula(heads: nat, m: nat, h: nat, a: nat, b: nat)
    requires h < heads && a < 2 && b < m
    ensures var r := h * (2 * m) + (a * m + b);
      r < Size([heads, 2, m]) && Destination(heads, m, r) == h * (2 * m) + (2 * b + a)
  {
    DestinationProducts(heads, m, h, a, b);
  }

  lemma DestinationProducts(heads: nat, m: nat, h: nat, a: nat, b: nat)
    requires h < heads && a < 2 && b < m
    ensures var r := Times(h, 2 * m) + (Times(a, m) + b);
      r < Size([heads, 2, m]) && Destination(heads, m, r) == Times(h, 2 * m) + (2 * b + a)
  {
    hide Times, Size, Flat, Unflat;
    Flat3([heads, 2, m], h, a, b);
    Flat3([heads, m, 2], h, b, a);
    UnflatFlat([heads, 2, m], [h, a, b]);
    Twice(m);
    Twice(b);
  }

  lemma Twice(m: nat)
    ensures Times(2, m) == 2 * m == Times(m, 2)
  {
  }

  /** No row leaves its head. */
  lemma DestinationKeepsHead(heads: nat, m: nat, r: nat)
    requires r < Size([heads, 2, m])
    ensures m > 0 && Quot(Destination(heads, m, r), 2 * m) == Quot(r, 2 * m)
  {
    hide Times, Quot, Rem, Size, Flat, Unflat;
    var i := Unflat([heads, 2, m], r);
    var h, a, b := i[0], i[1], i[2];
    assert i == [h, a, b];
    Flat3([heads, 2, m], h, a, b);
    Twice(m);
    DestinationProducts(heads, m, h, a, b);
    Units(m);
    Recover(h, 2 * b + a, 2 * m);
    Recover(h, Times(a, m) + b, 2 * m);
  }

  /** `repack` moves whole rows by the bijection `Destination`, every column kept in place. */
  lemma RepackMovesRows<T>(t: Tensor<T>, heads: nat, r: nat, c: nat)
    requires t.Wf() && Repacked(t, heads).Ok? && Within(t.shape, [r, c])
    ensures heads > 0
    ensures var m, out := HalfRows(t.shape[0], heads), Repacked(t, heads).value;
      && t.shape[0] == Times(heads, 2 * m) == Size([heads, 2, m])
      && out.Wf() && out.shape == t.shape
      && Within(t.shape, [Destination(heads, m, r), c])
      && out.At([Destination(heads, m, r), c]) == t.At([r, c])
  {
    hide HalfRows, Times, Size, Permute, Flat, Unflat;
    RepackAccepts(t, heads);
    HalfHead(t.shape[0], heads);
    var m, tail := HalfRows(t.shape[0], heads), [t.shape[1]];
    SameHeadSize(heads, m);
    var split := Tensor([heads, 2, m] + tail, t.data);
    assert t.shape == [t.shape[0]] + tail && t.shape[1..] == tail;
    SizeAppend([heads, 2, m], tail);
    SizeAppend([t.shape[0]], tail);
    Size1(t.shape[0]);
    SwappedShape(split, heads, 2, m, tail);
    var swapped := Permute(split, SWAP_MIDDLE).value;
    assert Repacked(t, heads).value == Tensor(t.shape, swapped.data);
    var i := Unflat([heads, 2, m], r);
    MovesThrough(t, split, swapped, Repacked(t, heads).value, [heads, 2, m], [heads, m, 2], i, c);
  }

  /** Whole rows moved by `Destination`, head by head. */
  ghost predicate MovedByHead<T>(t: Tensor<T>, out: Tensor<T>, heads: nat) {
    && heads > 0 && t.Wf() && |t.shape| == 2 && out.Wf() && out.shape == t.shape
    && var m := HalfRows(t.shape[0], heads);
       forall r: nat, c: nat :: Within(t.shape, [r, c]) ==>
         && r < Size([heads, 2, m]) && Within(t.shape, [Destination(heads, m, r), c])
         && out.At([Destination(heads, m, r), c]) == t.At([r, c])
  }

  lemma RepackIsMovedByHead<T>(t: Tensor<T>, heads: nat)
    requires t.Wf() && Repacked(t, heads).Ok?
    ensures MovedByHead(t, Repacked(t, heads).value, heads)
  {
    hide Repacked, HalfRows, Times, Size, Flat, Unflat, Within, Destination;
    RepackAccepts(t, heads);
    SameShape(t, heads);
    var m, out := HalfRows(t.shape[0], heads), Repacked(t, heads).value;
    forall r: nat, c: nat | Within(t.shape, [r, c])
      ensures r < Size([heads, 2, m]) && Within(t.shape, [Destination(heads, m, r), c])
      ensures out.At([Destination(heads, m, r), c]) == t.At([r, c])
    {
      RepackMovesRows(t, heads, r, c);
      RowInRange(t.shape, r, c);
    }
    assert heads > 0 && t.Wf() && |t.shape| == 2 && out.Wf() && out.shape == t.shape;
  }

  lemma SameShape<T>(t: Tensor<T>, heads: nat)
    requires t.Wf() && Repacked(t, heads).Ok?
    ensures Repacked(t, heads).value.shape == t.shape && Repacked(t, heads).value.Wf()
  {
    hide Times, Permute, Flat, Unflat;
  }

  lemma RowInRange(shape: Shape, r: nat, c: nat)
    requires |shape| == 2 && Within(shape, [r, c])
    ensures r < shape[0] && c < shape[1]
  {
  }

  /** One element followed through the reshape, the swap and the reshape back. */
  lemma MovesThrough<T>(t: Tensor<T>, split: Tensor<T>, swapped: Tensor<T>, out: Tensor<T>,
                        s: Shape, s': Shape, i: Index, col: nat)
    requires t.Wf() && |t.shape| == 2 && |s| == |s'| == 3 && t.shape[0] == Size(s) == Size(s')
    requires split == Tensor(s + t.shape[1..], t.data) && split.Wf()
    requires Permute(split, SWAP_MIDDLE) == Ok(swapped) && swapped.shape == s' + t.shape[1..]
    requires out == Tensor(t.shape, swapped.data) && out.Wf()
    requires Within(s, i) && s' == [s[0], s[2], s[1]] && col < t.shape[1]
    ensures var k := [i[0], i[2], i[1]];
      && Within(s', k)
      && Within(t.shape, [Flat(s, i), col]) && Within(t.shape, [Flat(s', k), col])
      && out.At([Flat(s', k), col]) == t.At([Flat(s, i), col])
  {
    hide Times, Size, Permute, Flat, Unflat;
    var tail, k := t.shape[1..], [i[0], i[2], i[1]];
    SplitLeading(t, split, s, i, tail, [col]);
    MovedElement(split, swapped, i, col);
    SplitLeading(out, swapped, s', k, tail, [col]);
    assert [Flat(s, i)] + [col] == [Flat(s, i), col];
    assert [Flat(s', k)] + [col] == [Flat(s', k), col];
  }

  lemma MovedElement<T>(split: Tensor<T>, swapped: Tensor<T>, i: Index, c: nat)
    requires split.Wf() && |split.shape| == 4 && |i| == 3 && Within(split.shape, i + [c])
    requires Permute(split, SWAP_MIDDLE) == Ok(swapped)
    ensures swapped.Wf() && Within(swapped.shape, [i[0], i[2], i[1]] + [c])
    ensures swapped.At([i[0], i[2], i[1]] + [c]) == split.At(i + [c])
  {
    SwapMoves(split, swapped, i + [c]);
    assert [i[0], i[2], i[1]] + [c] == [i[0], i[2], i[1], c];
  }

  /** The swapped reshape undoes the repacking, and the repacking undoes it. */
  lemma RepackRoundTrip<T>(t: Tensor<T>, heads: nat)
    requires t.Wf()
    ensures Repacked(t, heads).Ok? ==>
              Repacked(t, heads).value.Wf() && Unpacked(Repacked(t, heads).value, heads) == Ok(t)
    ensures Unpacked(t, heads).Ok? ==>
              Unpacked(t, heads).value.Wf() && Repacked(Unpacked(t, heads).value, heads) == Ok(t)
  {
    if heads > 0 && t.shape != [] {
      var m := HalfRows(t.shape[0], heads);
      InterchangeTwice(t, heads, 2, m);
      InterchangeTwice(t, heads, m, 2);
    }
  }

  lemma InterchangeTwice<T>(t: Tensor<T>, a: nat, b: nat, c: nat)
    requires t.Wf() && t.shape != []
    ensures Interchanged(t, a, b, c).Ok? ==>
              var out := Interchanged(t, a, b, c).value;
              out.Wf() && out.shape == t.shape && Interchanged(out, a, c, b) == Ok(t)
  {
    var tail := t.shape[1..];
    SwapMiddlePermutes(3 + |tail|);
    if Interchanged(t, a, b, c).Ok? {
      var split := Tensor([a, b, c] + tail, t.data);
      SwappedShape(split, a, b, c, tail);
      PermuteTwice(split, SWAP_MIDDLE, Permute(split, SWAP_MIDDLE).value);
    }
  }
}
