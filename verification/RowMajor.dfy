/** Dense tensors in row-major order: the parts of the tensor library that the model
    converters use, as exact operations on values. */
module RowMajor {
  import opened Basics
  import opened Arith

  type Shape = seq<nat>
  type Index = seq<nat>

  function Size(shape: Shape): nat {
    if shape == [] then 1 else Times(shape[0], Size(shape[1..]))
  }

  predicate Within(shape: Shape, idx: Index) {
    |idx| == |shape| && forall i :: 0 <= i < |shape| ==> idx[i] < shape[i]
  }

  /** Position of an element in the flat, row-major data. */
  function Flat(shape: Shape, idx: Index): (k: nat)
    requires Within(shape, idx)
    ensures k < Size(shape)
  {
    hide Times;
    if shape == [] then 0 else
      assert Within(shape[1..], idx[1..]);
      Bound(idx[0], Flat(shape[1..], idx[1..]), shape[0], Size(shape[1..]));
      Times(idx[0], Size(shape[1..])) + Flat(shape[1..], idx[1..])
  }

  /** Multi-index of a flat position: the inverse of `Flat`. */
  function Unflat(shape: Shape, k: nat): (idx: Index)
    requires k < Size(shape)
    ensures Within(shape, idx) && Flat(shape, idx) == k
  {
    hide Times, Quot, Rem;
    if shape == [] then [] else
      var m := Size(shape[1..]);
      Decompose(k, shape[0], m);
      var tail := Unflat(shape[1..], Rem(k, m));
      assert ([Quot(k, m)] + tail)[1..] == tail;
      [Quot(k, m)] + tail
  }

  lemma {:induction false} UnflatFlat(shape: Shape, idx: Index)
    requires Within(shape, idx)
    ensures Unflat(shape, Flat(shape, idx)) == idx
  {
    hide Times, Quot, Rem;
    if shape == [] {
    } else {
      Recover(idx[0], Flat(shape[1..], idx[1..]), Size(shape[1..]));
      UnflatFlat(shape[1..], idx[1..]);
      assert idx == [idx[0]] + idx[1..];
    }
  }

  lemma FlatInjective(shape: Shape, i: Index, j: Index)
    requires Within(shape, i) && Within(shape, j) && Flat(shape, i) == Flat(shape, j)
    ensures i == j
  {
    UnflatFlat(shape, i);
    UnflatFlat(shape, j);
  }

  // ---------------------------------------------------------------- regrouping dimensions

  lemma {:induction false} SizeAppend(s: Shape, tail: Shape)
    ensures Size(s + tail) == Times(Size(s), Size(tail))
  {
    hide Times;
    if s == [] {
      assert s + tail == tail;
      Units(Size(tail));
    } else {
      SizeAppend(s[1..], tail);
      assert (s + tail)[1..] == s[1..] + tail;
      Associate(s[0], Size(s[1..]), Size(tail));
    }
  }

  /** Row-major order reads the leading dimensions as one number and the rest below it. */
  lemma {:induction false} FlatAppend(s: Shape, i: Index, tail: Shape, j: Index)
    requires Within(s, i) && Within(tail, j)
    ensures Within(s + tail, i + j)
    ensures Flat(s + tail, i + j) == Times(Flat(s, i), Size(tail)) + Flat(tail, j)
  {
    hide Times;
    if s == [] {
      assert s + tail == tail && i + j == j;
      Units(Size(tail));
    } else {
      var n, m := Size(s[1..]), Size(tail);
      FlatAppend(s[1..], i[1..], tail, j);
      SizeAppend(s[1..], tail);
      assert (s + tail)[1..] == s[1..] + tail && (i + j)[1..] == i[1..] + j;
      Associate(i[0], n, m);
      Distribute(Times(i[0], n), Flat(s[1..], i[1..]), m);
    }
  }

  lemma Size1(n: nat)
    ensures Size([n]) == n
  {
    assert [n][1..] == [];
    Units(n);
  }

  lemma Flat1(n: nat, k: nat)
    requires k < n
    ensures Within([n], [k]) && Flat([n], [k]) == k
  {
    assert [n][1..] == [] && [k][1..] == [];
    Units(k);
  }

  /** Reading leading dimensions as a single one changes no flat position. */
  lemma Regroup(s: Shape, i: Index, tail: Shape, j: Index)
    requires Within(s, i) && Within(tail, j)
    ensures Within(s + tail, i + j) && Within([Size(s)] + tail, [Flat(s, i)] + j)
    ensures Flat(s + tail, i + j) == Flat([Size(s)] + tail, [Flat(s, i)] + j)
    ensures Size(s + tail) == Size([Size(s)] + tail)
  {
    hide Times, Size, Flat;
    FlatAppend(s, i, tail, j);
    Flat1(Size(s), Flat(s, i));
    FlatAppend([Size(s)], [Flat(s, i)], tail, j);
    SizeAppend(s, tail);
    SizeAppend([Size(s)], tail);
    Size1(Size(s));
  }

  datatype Tensor<T> = Tensor(shape: Shape, data: seq<T>) {
    predicate Wf() { |data| == Size(shape) }

    function At(idx: Index): T
      requires Wf() && Within(shape, idx)
    {
      data[Flat(shape, idx)]
    }
  }

  /** The tensor of a given shape whose element at each index is `f` of that index. */
  function Build<T>(shape: Shape, f: Index --> T): (t: Tensor<T>)
    requires forall idx :: Within(shape, idx) ==> f.requires(idx)
    ensures t.Wf() && t.shape == shape
  {
    Tensor(shape, seq(Size(shape), k requires 0 <= k < Size(shape) => f(Unflat(shape, k))))
  }

  /** Tensors of one shape that agree at every index are equal. */
  lemma SameElements<T>(a: Tensor<T>, b: Tensor<T>)
    requires a.Wf() && b.Wf() && a.shape == b.shape
    requires forall idx :: Within(a.shape, idx) ==> a.At(idx) == b.At(idx)
    ensures a == b
  {
    forall k | 0 <= k < |a.data| ensures a.data[k] == b.data[k] {
      var idx := Unflat(a.shape, k);
      assert a.At(idx) == b.At(idx);
    }
  }

  /** `Reshape`: same data, new shape; refused when the element counts differ. */
  function Reshape<T>(t: Tensor<T>, shape: Shape): Result<Tensor<T>> {
    if Size(shape) == Size(t.shape) then Ok(Tensor(shape, t.data)) else Err("shape mismatch")
  }

  /** Splitting the leading dimension into several keeps every element. */
  lemma SplitLeading<T>(t: Tensor<T>, split: Tensor<T>, s: Shape, i: Index, tail: Shape, j: Index)
    requires t.shape == [Size(s)] + tail && split.shape == s + tail && split.data == t.data && t.Wf()
    requires Within(s, i) && Within(tail, j)
    ensures split.Wf() && Within(split.shape, i + j) && Within(t.shape, [Flat(s, i)] + j)
    ensures split.At(i + j) == t.At([Flat(s, i)] + j)
  {
    Regroup(s, i, tail, j);
  }

  /** Every axis below the rank is listed, and listed once. */
  predicate Permutes(axes: seq<nat>, rank: nat) {
    && |axes| == rank
    && (forall i :: 0 <= i < rank ==> axes[i] < rank)
    && (forall i, j :: 0 <= i < j < rank ==> axes[i] != axes[j])
    && (forall p: nat :: p < rank ==> p in axes)
  }

  function Find(axes: seq<nat>, p: nat): (i: nat)
    requires p in axes
    ensures i < |axes| && axes[i] == p
  {
    if axes[0] == p then 0 else 1 + Find(axes[1..], p)
  }

  /** Where axis permutation finds the element of its result at `idx`. */
  function Unpermuted(axes: seq<nat>, idx: Index): (source: Index)
    requires Permutes(axes, |idx|)
    ensures |source| == |idx| && forall i :: 0 <= i < |idx| ==> source[axes[i]] == idx[i]
  {
    seq(|axes|, p requires 0 <= p < |axes| => idx[Find(axes, p)])
  }

  /** `T`: axis i of the result is axis axes[i] of the argument. */
  function Permute<T>(t: Tensor<T>, axes: seq<nat>): (r: Result<Tensor<T>>)
    requires t.Wf()
    ensures r.Ok? <==> Permutes(axes, |t.shape|)
    ensures r.Ok? ==> r.value.Wf() && |r.value.shape| == |axes|
    ensures r.Ok? ==> forall i :: 0 <= i < |axes| ==> r.value.shape[i] == t.shape[axes[i]]
  {
    if Permutes(axes, |t.shape|) then
      var shape := seq(|axes|, i requires 0 <= i < |axes| => t.shape[axes[i]]);
      assert forall idx :: Within(shape, idx) ==> Within(t.shape, Unpermuted(axes, idx)) by {
        forall idx | Within(shape, idx) ensures Within(t.shape, Unpermuted(axes, idx)) {
          UnpermutedWithin(t.shape, axes, shape, idx);
        }
      }
      Ok(Build(shape, idx requires Within(shape, idx) => t.At(Unpermuted(axes, idx))))
    else Err("axes are not a permutation")
  }

  lemma UnpermutedWithin(source: Shape, axes: seq<nat>, shape: Shape, idx: Index)
    requires Permutes(axes, |source|) && |shape| == |axes|
    requires forall i :: 0 <= i < |axes| ==> shape[i] == source[axes[i]]
    requires Within(shape, idx)
    ensures Within(source, Unpermuted(axes, idx))
  {
    forall p: nat | p < |source| ensures Unpermuted(axes, idx)[p] < source[p] {
      var i := Find(axes, p);
      assert Unpermuted(axes, idx)[axes[i]] == idx[i];
    }
  }

  lemma PermuteAt<T>(t: Tensor<T>, axes: seq<nat>, p: Tensor<T>, idx: Index)
    requires t.Wf() && Permute(t, axes) == Ok(p) && Within(p.shape, idx)
    ensures Within(t.shape, Unpermuted(axes, idx)) && p.At(idx) == t.At(Unpermuted(axes, idx))
  {
    UnpermutedWithin(t.shape, axes, p.shape, idx);
    UnflatFlat(p.shape, idx);
  }

  predicate Involutive(axes: seq<nat>) {
    Permutes(axes, |axes|) && forall i :: 0 <= i < |axes| ==> axes[axes[i]] == i
  }

  lemma UnpermutedTwice(axes: seq<nat>, idx: Index)
    requires Involutive(axes) && |idx| == |axes|
    ensures Unpermuted(axes, Unpermuted(axes, idx)) == idx
  {
    var u := Unpermuted(axes, idx);
    var w := Unpermuted(axes, u);
    forall i | 0 <= i < |idx| ensures w[i] == idx[i] {
      assert w[axes[axes[i]]] == u[axes[i]] == idx[i];
    }
  }

  /** Permuting twice by axes that only trade places changes nothing. */
  lemma PermuteTwice<T>(t: Tensor<T>, axes: seq<nat>, p: Tensor<T>)
    requires t.Wf() && Involutive(axes) && Permute(t, axes) == Ok(p)
    ensures Permute(p, axes) == Ok(t)
  {
    var q := Permute(p, axes).value;
    forall i | 0 <= i < |axes| ensures q.shape[i] == t.shape[i] {
      assert q.shape[i] == p.shape[axes[i]] == t.shape[axes[axes[i]]];
    }
    assert q.shape == t.shape;
    forall idx | Within(t.shape, idx) ensures q.At(idx) == t.At(idx) {
      PermuteAt(p, axes, q, idx);
      PermuteAt(t, axes, p, Unpermuted(axes, idx));
      UnpermutedTwice(axes, idx);
    }
    SameElements(q, t);
  }

  /** `Slice` on one dimension: positions lo to hi of `dim`, everything of the others. */
  function Slice<T>(t: Tensor<T>, dim: nat, lo: nat, hi: nat): (r: Result<Tensor<T>>)
    requires t.Wf() && dim < |t.shape| && lo <= hi
    ensures r.Ok? <==> hi <= t.shape[dim]
    ensures r.Ok? ==> r.value.Wf() && r.value.shape == t.shape[dim := hi - lo]
  {
    if hi <= t.shape[dim] then
      var shape := t.shape[dim := hi - lo];
      Ok(Build(shape, idx requires Within(shape, idx) => t.At(idx[dim := lo + idx[dim]])))
    else Err("slice out of range")
  }

  lemma SliceAt<T>(t: Tensor<T>, dim: nat, lo: nat, hi: nat, s: Tensor<T>, idx: Index)
    requires t.Wf() && dim < |t.shape| && lo <= hi
    requires Slice(t, dim, lo, hi) == Ok(s) && Within(s.shape, idx)
    ensures Within(t.shape, idx[dim := lo + idx[dim]]) && s.At(idx) == t.At(idx[dim := lo + idx[dim]])
  {
    UnflatFlat(s.shape, idx);
  }

  predicate Joinable(a: Shape, b: Shape, dim: nat) {
    |a| == |b| && dim < |a| && forall i :: 0 <= i < |a| && i != dim ==> a[i] == b[i]
  }

  /** `Concat` of two tensors along `dim`. */
  function Concat<T>(dim: nat, a: Tensor<T>, b: Tensor<T>): (r: Result<Tensor<T>>)
    requires a.Wf() && b.Wf()
    ensures r.Ok? <==> Joinable(a.shape, b.shape, dim)
    ensures r.Ok? ==> r.value.Wf() && r.value.shape == a.shape[dim := a.shape[dim] + b.shape[dim]]
  {
    if Joinable(a.shape, b.shape, dim) then
      var w := a.shape[dim];
      var shape := a.shape[dim := w + b.shape[dim]];
      Ok(Build(shape, idx requires Within(shape, idx) =>
        if idx[dim] < w then a.At(idx) else b.At(idx[dim := idx[dim] - w])))
    else Err("shapes do not agree")
  }

  lemma ConcatAt<T>(dim: nat, a: Tensor<T>, b: Tensor<T>, c: Tensor<T>, idx: Index)
    requires a.Wf() && b.Wf() && Concat(dim, a, b) == Ok(c) && Within(c.shape, idx)
    ensures if idx[dim] < a.shape[dim] then Within(a.shape, idx) && c.At(idx) == a.At(idx)
            else Within(b.shape, idx[dim := idx[dim] - a.shape[dim]])
                 && c.At(idx) == b.At(idx[dim := idx[dim] - a.shape[dim]])
  {
    UnflatFlat(c.shape, idx);
  }

  /** The two arguments of a concatenation are slices of its result. */
  lemma ConcatThenSlice<T>(dim: nat, a: Tensor<T>, b: Tensor<T>, c: Tensor<T>)
    requires a.Wf() && b.Wf() && Concat(dim, a, b) == Ok(c)
    ensures Slice(c, dim, 0, a.shape[dim]) == Ok(a)
    ensures Slice(c, dim, a.shape[dim], a.shape[dim] + b.shape[dim]) == Ok(b)
  {
    hide Concat, Slice, Size, Flat;
    var w := a.shape[dim];
    var x, y := Slice(c, dim, 0, w).value, Slice(c, dim, w, w + b.shape[dim]).value;
    assert x.shape == a.shape && y.shape == b.shape;
    forall idx | Within(a.shape, idx) ensures x.At(idx) == a.At(idx) {
      SliceAt(c, dim, 0, w, x, idx);
      assert idx[dim := 0 + idx[dim]] == idx;
      ConcatAt(dim, a, b, c, idx);
    }
    forall idx | Within(b.shape, idx) ensures y.At(idx) == b.At(idx) {
      SliceAt(c, dim, w, w + b.shape[dim], y, idx);
      var there := idx[dim := w + idx[dim]];
      ConcatAt(dim, a, b, c, there);
      assert there[dim := there[dim] - w] == idx;
    }
    SameElements(x, a);
    SameElements(y, b);
  }

  // ---------------------------------------------------------------- rows of a matrix

  lemma MatrixSize(shape: Shape)
    requires |shape| == 2
    ensures Size(shape) == Times(shape[0], shape[1])
  {
    hide Times, Size;
    assert shape == [shape[0]] + [shape[1]];
    SizeAppend([shape[0]], [shape[1]]);
    Size1(shape[0]);
    Size1(shape[1]);
  }

  function Row<T>(t: Tensor<T>, r: nat): (row: seq<T>)
    requires t.Wf() && |t.shape| == 2 && r < t.shape[0]
    ensures |row| == t.shape[1]
  {
    hide Times;
    MatrixSize(t.shape);
    MonotoneStrict(r, t.shape[0], t.shape[1]);
    t.data[Times(r, t.shape[1])..Times(r, t.shape[1]) + t.shape[1]]
  }

  /** `SelectF32` along axis 1 of a matrix: its rows. */
  function SelectRows<T>(t: Tensor<T>): (rows: seq<seq<T>>)
    requires t.Wf() && |t.shape| == 2
  {
    seq(t.shape[0], r requires 0 <= r < t.shape[0] => Row(t, r))
  }

  function Joined<T>(parts: seq<seq<T>>): seq<T> {
    if parts == [] then [] else Joined(parts[..|parts| - 1]) + parts[|parts| - 1]
  }

  lemma SelectRowsJoin<T>(t: Tensor<T>)
    requires t.Wf() && |t.shape| == 2
    ensures Joined(SelectRows(t)) == t.data
  {
    MatrixSize(t.shape);
    RowsJoin(t, t.shape[0]);
    assert SelectRows(t)[..t.shape[0]] == SelectRows(t);
  }

  lemma {:induction false} RowsJoin<T>(t: Tensor<T>, n: nat)
    requires t.Wf() && |t.shape| == 2 && n <= t.shape[0]
    ensures Times(n, t.shape[1]) <= |t.data|
    ensures Joined(SelectRows(t)[..n]) == t.data[..Times(n, t.shape[1])]
  {
    hide Times, Size;
    var rows, w := SelectRows(t), t.shape[1];
    MatrixSize(t.shape);
    Monotone(n, t.shape[0], w);
    Units(w);
    if n > 0 {
      RowsJoin(t, n - 1);
      assert rows[..n][..n - 1] == rows[..n - 1];
      Distribute(n - 1, 1, w);
    }
  }

  /** A tensor object whose shape and data the library changes in place. */
  class Dense<T> {
    var value: Tensor<T>

    constructor (shape: Shape, backing: seq<T>)
      requires |backing| == Size(shape)
      ensures value == Tensor(shape, backing)
    {
      value := Tensor(shape, backing);
    }

    method Reshape(shape: Shape) returns (err: Result<()>)
      modifies this
      ensures err.Ok? <==> Size(shape) == Size(old(value).shape)
      ensures value == if err.Ok? then Tensor(shape, old(value).data) else old(value)
    {
      if Size(shape) != Size(value.shape) { return Err("shape mismatch"); }
      value := Tensor(shape, value.data);
      return Ok(());
    }

    method T(axes: seq<nat>) returns (err: Result<()>)
      requires value.Wf()
      modifies this
      ensures err.Ok? <==> Permutes(axes, |old(value).shape|)
      ensures if err.Ok? then Ok(value) == Permute(old(value), axes) else value == old(value)
    {
      var r := Permute(value, axes);
      if r.Err? { return Err("axes are not a permutation"); }
      value := r.value;
      return Ok(());
    }
  }
}
