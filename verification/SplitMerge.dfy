/** Splitting one tensor along a dimension into several, and merging tensors that match a
    name pattern into one. */
module SplitMerge {
  import opened Basics
  import opened Arith
  import opened RowMajor

  datatype Source<T> = Source(name: string, kind: nat, tensor: Tensor<T>)

  // ---------------------------------------------------------------- splitting

  /** `dim` 0 means an even share; `fn` is applied to the slice, if given. */
  datatype Split<!T> = Split(rename: string -> string, dim: nat, fn: Option<Tensor<T> -> Result<Tensor<T>>>)

  /** A tensor to be written: what its writer will produce is in `data`. */
  datatype Output<T> = Output(name: string, kind: nat, shape: Shape, data: Result<seq<T>>)

  /** Extent of split i along a dimension of the given extent. */
  function Width<T>(extent: nat, splits: seq<Split<T>>, i: nat): nat
    requires i < |splits|
  {
    Or(splits[i].dim, extent / |splits|)
  }

  /** Where split i starts: the extents of the earlier ones together. */
  function Offset<T>(extent: nat, splits: seq<Split<T>>, i: nat): nat
    requires i <= |splits|
  {
    if i == 0 then 0 else Offset(extent, splits, i - 1) + Width(extent, splits, i - 1)
  }

  /** The slice that split i takes. */
  function Part<T>(t: Tensor<T>, dim: nat, splits: seq<Split<T>>, i: nat): Result<Tensor<T>>
    requires t.Wf() && dim < |t.shape| && i < |splits|
  {
    Slice(t, dim, Offset(t.shape[dim], splits, i), Offset(t.shape[dim], splits, i + 1))
  }

  function Transformed<T>(fn: Option<Tensor<T> -> Result<Tensor<T>>>, part: Tensor<T>): Result<Tensor<T>> {
    match fn
    case None => Ok(part)
    case Some(f) => f(part)
  }

  /** What split i writes: its slice, transformed if asked, under its own name and extent. */
  function Written<T>(t: Source<T>, dim: nat, splits: seq<Split<T>>, i: nat): Output<T>
    requires t.tensor.Wf() && dim < |t.tensor.shape| && i < |splits|
  {
    var data := match Part(t.tensor, dim, splits, i)
                case Err(reason) => Err(reason)
                case Ok(part) => Flattened(Transformed(splits[i].fn, part));
    Output(splits[i].rename(t.name), t.kind, t.tensor.shape[dim := Width(t.tensor.shape[dim], splits, i)], data)
  }

  method SplitDim<T>(t: Source<T>, dim: nat, splits: seq<Split<T>>) returns (outs: seq<Output<T>>)
    requires t.tensor.Wf() && dim < |t.tensor.shape|
    ensures |outs| == |splits|
    ensures forall i :: 0 <= i < |splits| ==> WritesSplit(t, dim, splits, i, outs[i])
    ensures splits != [] && (forall i :: 0 <= i < |splits| ==> splits[i].fn.None?) ==>
              (JoinedOutputs(dim, outs, |outs|) == Ok(t.tensor) <==>
               Offset(t.tensor.shape[dim], splits, |splits|) == t.tensor.shape[dim])
  {
    outs := WriteSplits(t, dim, splits);
    forall i | 0 <= i < |splits| ensures WritesSplit(t, dim, splits, i, outs[i]) {
      WrittenSplit(t, dim, splits, i);
    }
    if splits != [] && forall i :: 0 <= i < |splits| ==> splits[i].fn.None? {
      JoinedIsRejoined(t, dim, splits, outs, |outs|);
      SplitRoundTrip(t.tensor, dim, splits);
    }
  }

  /** The loop over the splits. */
  method WriteSplits<T>(t: Source<T>, dim: nat, splits: seq<Split<T>>) returns (outs: seq<Output<T>>)
    requires t.tensor.Wf() && dim < |t.tensor.shape|
    ensures |outs| == |splits|
    ensures forall i :: 0 <= i < |splits| ==> outs[i] == Written(t, dim, splits, i)
  {
    var offset := 0;
    outs := [];
    for i := 0 to |splits|
      invariant |outs| == i
      invariant offset == Offset(t.tensor.shape[dim], splits, i)
      invariant forall j :: 0 <= j < i ==> outs[j] == Written(t, dim, splits, j)
    {
      var shape := t.tensor.shape;
      var width := Or(splits[i].dim, shape[dim] / |splits|);
      shape := shape[dim := width];
      var slice := Slice(t.tensor, dim, offset, offset + width);
      offset := offset + width;
      var data;
      match slice {
        case Err(reason) => data := Err(reason);
        case Ok(part) => data := Flattened(Transformed(splits[i].fn, part));
      }
      var out := Output(splits[i].rename(t.name), t.kind, shape, data);
      assert out == Written(t, dim, splits, i);
      outs := outs + [out];
    }
  }

  function Flattened<T>(r: Result<Tensor<T>>): Result<seq<T>> {
    match r
    case Err(reason) => Err(reason)
    case Ok(t) => Ok(t.data)
  }

  // -- nothing lost, nothing duplicated

  lemma {:induction false} OffsetsAscend<T>(extent: nat, splits: seq<Split<T>>, i: nat, j: nat)
    requires i <= j <= |splits|
    ensures Offset(extent, splits, i) <= Offset(extent, splits, j)
    ensures i < j ==> Offset(extent, splits, i) + Width(extent, splits, i) <= Offset(extent, splits, j)
  {
    if i < j { OffsetsAscend(extent, splits, i, j - 1); }
  }

  /** Even shares fill the dimension exactly when their number divides it. */
  lemma {:induction false} EvenShares<T>(extent: nat, splits: seq<Split<T>>, n: nat)
    requires n <= |splits| && forall i :: 0 <= i < |splits| ==> splits[i].dim == 0
    ensures |splits| > 0 ==> Offset(extent, splits, n) == Times(n, extent / |splits|)
    ensures n == |splits| > 0 ==> (Offset(extent, splits, n) == extent <==> extent % |splits| == 0)
  {
    hide Times;
    if |splits| > 0 {
      Units(extent / |splits|);
      if n > 0 {
        EvenShares(extent, splits, n - 1);
        Distribute(n - 1, 1, extent / |splits|);
      }
      WholeShares(extent, |splits|);
    }
  }

  lemma WholeShares(extent: nat, n: nat)
    requires n > 0
    ensures Times(n, extent / n) == extent <==> extent % n == 0
  {
    Recompose(extent, n);
    Commute(n, extent / n);
  }

  /** The split that owns a position along the dimension. */
  function Owner<T>(extent: nat, splits: seq<Split<T>>, n: nat, p: nat): (i: nat)
    requires n <= |splits| && p < Offset(extent, splits, n)
    ensures i < n && Offset(extent, splits, i) <= p < Offset(extent, splits, i + 1)
  {
    if Offset(extent, splits, n - 1) <= p then n - 1 else Owner(extent, splits, n - 1, p)
  }

  /** Source index of flat position k of split i. */
  function Place<T>(shape: Shape, dim: nat, splits: seq<Split<T>>, i: nat, k: nat): (place: Index)
    requires dim < |shape| && i < |splits| && Offset(shape[dim], splits, |splits|) <= shape[dim]
    requires k < Size(shape[dim := Width(shape[dim], splits, i)])
    ensures Within(shape, place)
    ensures Offset(shape[dim], splits, i) <= place[dim] < Offset(shape[dim], splits, i + 1)
    ensures var part := shape[dim := Width(shape[dim], splits, i)];
            var inside := place[dim := place[dim] - Offset(shape[dim], splits, i)];
            Within(part, inside) && Flat(part, inside) == k
  {
    var idx := Unflat(shape[dim := Width(shape[dim], splits, i)], k);
    OffsetsAscend(shape[dim], splits, i, |splits|);
    var place := idx[dim := Offset(shape[dim], splits, i) + idx[dim]];
    assert place[dim := place[dim] - Offset(shape[dim], splits, i)] == idx;
    place
  }

  /** Flat position in the source of flat position k of split i. */
  function Origin<T>(shape: Shape, dim: nat, splits: seq<Split<T>>, i: nat, k: nat): (o: nat)
    requires dim < |shape| && i < |splits| && Offset(shape[dim], splits, |splits|) <= shape[dim]
    requires k < Size(shape[dim := Width(shape[dim], splits, i)])
    ensures o < Size(shape)
  {
    Flat(shape, Place(shape, dim, splits, i, k))
  }

  /** Each output position holds the element of its origin. */
  lemma PartHoldsOrigin<T>(t: Tensor<T>, dim: nat, splits: seq<Split<T>>, i: nat, k: nat)
    requires t.Wf() && dim < |t.shape| && i < |splits|
    requires Offset(t.shape[dim], splits, |splits|) <= t.shape[dim]
    requires k < Size(t.shape[dim := Width(t.shape[dim], splits, i)])
    ensures Part(t, dim, splits, i).Ok?
    ensures var part := Part(t, dim, splits, i).value;
      k < |part.data| && part.data[k] == t.data[Origin(t.shape, dim, splits, i, k)]
  {
    OffsetsAscend(t.shape[dim], splits, i + 1, |splits|);
    var part := Part(t, dim, splits, i).value;
    SliceAt(t, dim, Offset(t.shape[dim], splits, i), Offset(t.shape[dim], splits, i + 1), part,
            Unflat(part.shape, k));
  }

  /** Every source element appears somewhere: the extents fill the dimension. */
  lemma EveryElementIsKept<T>(shape: Shape, dim: nat, splits: seq<Split<T>>, o: nat) returns (i: nat, k: nat)
    requires dim < |shape| && Offset(shape[dim], splits, |splits|) == shape[dim]
    requires o < Size(shape)
    ensures i < |splits| && k < Size(shape[dim := Width(shape[dim], splits, i)])
    ensures Origin(shape, dim, splits, i, k) == o
  {
    var idx := Unflat(shape, o);
    i := Owner(shape[dim], splits, |splits|, idx[dim]);
    var inside := idx[dim := idx[dim] - Offset(shape[dim], splits, i)];
    var part := shape[dim := Width(shape[dim], splits, i)];
    k := Flat(part, inside);
    UnflatFlat(part, inside);
    assert inside[dim := Offset(shape[dim], splits, i) + inside[dim]] == idx;
  }

  /** ... and only once: two output positions with one origin are the same position. */
  lemma NoElementIsDuplicated<T>(shape: Shape, dim: nat, splits: seq<Split<T>>, i: nat, k: nat, i': nat, k': nat)
    requires dim < |shape| && Offset(shape[dim], splits, |splits|) <= shape[dim]
    requires i < |splits| && k < Size(shape[dim := Width(shape[dim], splits, i)])
    requires i' < |splits| && k' < Size(shape[dim := Width(shape[dim], splits, i')])
    requires Origin(shape, dim, splits, i, k) == Origin(shape, dim, splits, i', k')
    ensures i == i' && k == k'
  {
    var place, place' := Place(shape, dim, splits, i, k), Place(shape, dim, splits, i', k');
    FlatInjective(shape, place, place');
    OneOwner(shape[dim], splits, i, i', place[dim]);
  }

  lemma OneOwner<T>(extent: nat, splits: seq<Split<T>>, i: nat, j: nat, p: nat)
    requires i < |splits| && j < |splits|
    requires Offset(extent, splits, i) <= p < Offset(extent, splits, i + 1)
    requires Offset(extent, splits, j) <= p < Offset(extent, splits, j + 1)
    ensures i == j
  {
    if i < j { OffsetsAscend(extent, splits, i + 1, j); }
    if j < i { OffsetsAscend(extent, splits, j + 1, i); }
  }

  // -- joining the parts again

  /** All parts joined along the dimension, first to last. */
  function Rejoined<T>(t: Tensor<T>, dim: nat, splits: seq<Split<T>>, n: nat): (r: Result<Tensor<T>>)
    requires t.Wf() && dim < |t.shape| && 0 < n <= |splits|
    ensures r.Ok? ==> r.value.Wf()
  {
    if n == 1 then Part(t, dim, splits, 0) else
      var front :- Rejoined(t, dim, splits, n - 1);
      var last :- Part(t, dim, splits, n - 1);
      Concat(dim, front, last)
  }

  /** Two adjacent slices join to one. */
  lemma JoinSlices<T>(t: Tensor<T>, dim: nat, lo: nat, mid: nat, hi: nat, a: Tensor<T>, b: Tensor<T>)
    requires t.Wf() && dim < |t.shape| && lo <= mid <= hi <= t.shape[dim]
    requires Slice(t, dim, lo, mid) == Ok(a) && Slice(t, dim, mid, hi) == Ok(b)
    ensures Concat(dim, a, b) == Slice(t, dim, lo, hi)
  {
    hide Slice, Concat, Size, Flat;
    var c, s := Concat(dim, a, b).value, Slice(t, dim, lo, hi).value;
    assert c.shape == s.shape;
    forall idx | Within(s.shape, idx) ensures c.At(idx) == s.At(idx) {
      JoinedElement(t, dim, lo, mid, hi, a, b, c, s, idx);
    }
    SameElements(c, s);
  }

  lemma JoinedElement<T>(t: Tensor<T>, dim: nat, lo: nat, mid: nat, hi: nat,
                         a: Tensor<T>, b: Tensor<T>, c: Tensor<T>, s: Tensor<T>, idx: Index)
    requires t.Wf() && dim < |t.shape| && lo <= mid <= hi <= t.shape[dim]
    requires Slice(t, dim, lo, mid) == Ok(a) && Slice(t, dim, mid, hi) == Ok(b)
    requires Concat(dim, a, b) == Ok(c) && Slice(t, dim, lo, hi) == Ok(s) && Within(s.shape, idx)
    requires a.Wf() && b.Wf() && c.Wf() && s.Wf() && c.shape == s.shape
    ensures c.At(idx) == s.At(idx)
  {
    hide Slice, Concat, Size, Flat;
    ConcatAt(dim, a, b, c, idx);
    SliceAt(t, dim, lo, hi, s, idx);
    if idx[dim] < a.shape[dim] {
      SliceAt(t, dim, lo, mid, a, idx);
    } else {
      var shifted := idx[dim := idx[dim] - a.shape[dim]];
      SliceAt(t, dim, mid, hi, b, shifted);
      assert shifted[dim := mid + shifted[dim]] == idx[dim := lo + idx[dim]];
    }
  }

  lemma WholeSlice<T>(t: Tensor<T>, dim: nat)
    requires t.Wf() && dim < |t.shape|
    ensures Slice(t, dim, 0, t.shape[dim]) == Ok(t)
  {
    var s := Slice(t, dim, 0, t.shape[dim]).value;
    assert s.shape == t.shape;
    forall idx | Within(t.shape, idx) ensures s.At(idx) == t.At(idx) {
      SliceAt(t, dim, 0, t.shape[dim], s, idx);
      assert idx[dim := 0 + idx[dim]] == idx;
    }
    SameElements(s, t);
  }

  lemma {:induction false} RejoinedPrefix<T>(t: Tensor<T>, dim: nat, splits: seq<Split<T>>, n: nat)
    requires t.Wf() && dim < |t.shape| && 0 < n <= |splits|
    requires Offset(t.shape[dim], splits, n) <= t.shape[dim]
    ensures Rejoined(t, dim, splits, n) == Slice(t, dim, 0, Offset(t.shape[dim], splits, n))
  {
    if n > 1 {
      var extent := t.shape[dim];
      OffsetsAscend(extent, splits, n - 1, n);
      RejoinedPrefix(t, dim, splits, n - 1);
      JoinSlices(t, dim, 0, Offset(extent, splits, n - 1), Offset(extent, splits, n),
                 Slice(t, dim, 0, Offset(extent, splits, n - 1)).value, Part(t, dim, splits, n - 1).value);
    }
  }

  lemma {:induction false} RejoinedFails<T>(t: Tensor<T>, dim: nat, splits: seq<Split<T>>, n: nat)
    requires t.Wf() && dim < |t.shape| && 0 < n <= |splits|
    ensures Offset(t.shape[dim], splits, n) > t.shape[dim] ==> Rejoined(t, dim, splits, n).Err?
  {
    if n > 1 { RejoinedFails(t, dim, splits, n - 1); }
  }

  /** Joining the parts along the dimension gives the source back, exactly when the
      extents of the splits add up to the dimension. */
  lemma SplitRoundTrip<T>(t: Tensor<T>, dim: nat, splits: seq<Split<T>>)
    requires t.Wf() && dim < |t.shape| && splits != []
    ensures Rejoined(t, dim, splits, |splits|) == Ok(t) <==>
            Offset(t.shape[dim], splits, |splits|) == t.shape[dim]
  {
    var total := Offset(t.shape[dim], splits, |splits|);
    if total > t.shape[dim] {
      RejoinedFails(t, dim, splits, |splits|);
    } else {
      RejoinedPrefix(t, dim, splits, |splits|);
      WholeSlice(t, dim);
    }
  }

  // -- what is written

  /** Output i has its own name, the kind of the source, and the shape of the source but for its
      extent.  If the splits fit, it holds at each position the element of its origin, or what
      its function makes of that slice; if its slice reaches too far, it is an error. */
  ghost predicate WritesSplit<T>(t: Source<T>, dim: nat, splits: seq<Split<T>>, i: nat, out: Output<T>)
    requires t.tensor.Wf() && dim < |t.tensor.shape| && i < |splits|
  {
    var shape, split := t.tensor.shape, splits[i];
    var width := if split.dim != 0 then split.dim else shape[dim] / |splits|;
    var lo, hi := Offset(shape[dim], splits, i), Offset(shape[dim], splits, i + 1);
    && out.name == split.rename(t.name) && out.kind == t.kind && out.shape == shape[dim := width]
    && hi == lo + width
    && (hi > shape[dim] ==> out.data.Err?)
    && (hi <= shape[dim] && split.fn.Some? ==>
          var made := split.fn.value(Slice(t.tensor, dim, lo, hi).value);
          (out.data.Ok? <==> made.Ok?) && (made.Ok? ==> out.data == Ok(made.value.data)))
    && (Offset(shape[dim], splits, |splits|) <= shape[dim] && split.fn.None? ==>
          && out.data.Ok? && |out.data.value| == Size(out.shape)
          && forall k :: 0 <= k < |out.data.value| ==>
               out.data.value[k] == t.tensor.data[Origin(shape, dim, splits, i, k)])
  }

  lemma WrittenSplit<T>(t: Source<T>, dim: nat, splits: seq<Split<T>>, i: nat)
    requires t.tensor.Wf() && dim < |t.tensor.shape| && i < |splits|
    ensures WritesSplit(t, dim, splits, i, Written(t, dim, splits, i))
  {
    hide Slice, Origin, Size;
    var shape, out := t.tensor.shape, Written(t, dim, splits, i);
    var lo, hi := Offset(shape[dim], splits, i), Offset(shape[dim], splits, i + 1);
    assert Slice(t.tensor, dim, lo, hi).Ok? <==> hi <= shape[dim];
    if Offset(shape[dim], splits, |splits|) <= shape[dim] && splits[i].fn.None? {
      OffsetsAscend(shape[dim], splits, i + 1, |splits|);
      forall k | 0 <= k < |out.data.value|
        ensures out.data.value[k] == t.tensor.data[Origin(shape, dim, splits, i, k)]
      {
        PartHoldsOrigin(t.tensor, dim, splits, i, k);
      }
    }
  }

  /** An output read back as the tensor it declares. */
  function ReadBack<T>(out: Output<T>): (r: Result<Tensor<T>>)
    ensures r.Ok? ==> r.value.Wf()
  {
    match out.data
    case Err(reason) => Err(reason)
    case Ok(data) => if |data| == Size(out.shape) then Ok(Tensor(out.shape, data)) else Err("wrong size")
  }

  /** The first n outputs joined along the dimension. */
  function JoinedOutputs<T>(dim: nat, outs: seq<Output<T>>, n: nat): (r: Result<Tensor<T>>)
    requires 0 < n <= |outs|
    ensures r.Ok? ==> r.value.Wf()
  {
    if n == 1 then ReadBack(outs[0]) else
      var front :- JoinedOutputs(dim, outs, n - 1);
      var last :- ReadBack(outs[n - 1]);
      Concat(dim, front, last)
  }

  lemma {:induction false} JoinedIsRejoined<T>(t: Source<T>, dim: nat, splits: seq<Split<T>>, outs: seq<Output<T>>,
                                               n: nat)
    requires t.tensor.Wf() && dim < |t.tensor.shape| && 0 < n <= |splits| == |outs|
    requires forall i :: 0 <= i < |splits| ==> splits[i].fn.None? && outs[i] == Written(t, dim, splits, i)
    ensures JoinedOutputs(dim, outs, n) == Rejoined(t.tensor, dim, splits, n)
  {
    hide Slice, Concat, Size;
    PartReadBack(t, dim, splits, n - 1);
    if n > 1 { JoinedIsRejoined(t, dim, splits, outs, n - 1); }
  }

  lemma PartReadBack<T>(t: Source<T>, dim: nat, splits: seq<Split<T>>, i: nat)
    requires t.tensor.Wf() && dim < |t.tensor.shape| && i < |splits| && splits[i].fn.None?
    ensures ReadBack(Written(t, dim, splits, i)) == Part(t.tensor, dim, splits, i)
  {
    hide Slice, Size;
  }

  // ---------------------------------------------------------------- merging

  datatype Merge = Merge(pattern: string, name: string)

  datatype Merged<T> = Merged(name: string, kind: nat, shape: Shape, group: seq<Source<T>>)

  /** Index of the first pattern that matches a name; the number of patterns if none does.
      `matches` stands for `path.Match`, a malformed pattern matching nothing. */
  function FirstMatch(merges: seq<Merge>, matches: (string, string) -> bool, name: string): (i: nat)
    ensures i <= |merges|
    ensures i < |merges| ==> matches(merges[i].pattern, name)
    ensures forall j :: 0 <= j < i ==> !matches(merges[j].pattern, name)
  {
    if merges == [] then 0
    else if matches(merges[0].pattern, name) then 0
    else 1 + FirstMatch(merges[1..], matches, name)
  }

  /** The tensors whose first match is pattern i, in input order. */
  function Group<T>(ts: seq<Source<T>>, merges: seq<Merge>, matches: (string, string) -> bool, i: nat): seq<Source<T>> {
    if ts == [] then [] else
      var front, t := Group(ts[..|ts| - 1], merges, matches, i), ts[|ts| - 1];
      if FirstMatch(merges, matches, t.name) == i then front + [t] else front
  }

  /** The tensors that none of the first i patterns match, in input order. */
  function Unclaimed<T>(ts: seq<Source<T>>, merges: seq<Merge>, matches: (string, string) -> bool,
                        i: nat): seq<Source<T>> {
    if ts == [] then [] else
      var front, t := Unclaimed(ts[..|ts| - 1], merges, matches, i), ts[|ts| - 1];
      if FirstMatch(merges, matches, t.name) >= i then front + [t] else front
  }

  function Filter<E>(s: seq<E>, fn: E -> bool): seq<E> {
    if s == [] then [] else
      var front, e := Filter(s[..|s| - 1], fn), s[|s| - 1];
      if fn(e) then front + [e] else front
  }

  function Reject<E>(s: seq<E>, fn: E -> bool): seq<E> {
    if s == [] then [] else
      var front, e := Reject(s[..|s| - 1], fn), s[|s| - 1];
      if fn(e) then front else front + [e]
  }

  lemma FilterSnoc<E>(s: seq<E>, e: E, fn: E -> bool)
    ensures Filter(s + [e], fn) == if fn(e) then Filter(s, fn) + [e] else Filter(s, fn)
    ensures Reject(s + [e], fn) == if fn(e) then Reject(s, fn) else Reject(s, fn) + [e]
  {
    assert (s + [e])[..|s|] == s;
  }

  method SlicesSplitFunc<E>(s: seq<E>, fn: E -> bool) returns (matched: seq<E>, unmatched: seq<E>)
    ensures matched == Filter(s, fn) && unmatched == Reject(s, fn)
  {
    matched, unmatched := [], [];
    for i := 0 to |s|
      invariant matched == Filter(s[..i], fn) && unmatched == Reject(s[..i], fn)
    {
      assert s[..i + 1] == s[..i] + [s[i]];
      FilterSnoc(s[..i], s[i], fn);
      if fn(s[i]) {
        matched := matched + [s[i]];
      } else {
        unmatched := unmatched + [s[i]];
      }
    }
    assert s[..|s|] == s;
  }

  /** The test that `mergeTensors` hands to `slicesSplitFunc` for one pattern. */
  function NameTest<T>(pattern: string, matches: (string, string) -> bool): Source<T> -> bool {
    (t: Source<T>) => matches(pattern, t.name)
  }

  /** Splitting off pattern i leaves exactly what the first i + 1 patterns leave. */
  lemma {:induction false} SplitOff<T>(ts: seq<Source<T>>, merges: seq<Merge>, matches: (string, string) -> bool,
                                       i: nat)
    requires i < |merges|
    ensures var fn := NameTest(merges[i].pattern, matches);
      && Filter(Unclaimed(ts, merges, matches, i), fn) == Group(ts, merges, matches, i)
      && Reject(Unclaimed(ts, merges, matches, i), fn) == Unclaimed(ts, merges, matches, i + 1)
  {
    if ts != [] {
      var front, t := ts[..|ts| - 1], ts[|ts| - 1];
      SplitOff(front, merges, matches, i);
      FilterSnoc(Unclaimed(front, merges, matches, i), t, NameTest(merges[i].pattern, matches));
    }
  }

  lemma {:induction false} AllUnclaimed<T>(ts: seq<Source<T>>, merges: seq<Merge>, matches: (string, string) -> bool)
    ensures Unclaimed(ts, merges, matches, 0) == ts
    ensures Unclaimed(ts, merges, matches, |merges|) == Group(ts, merges, matches, |merges|)
  {
    if ts != [] { AllUnclaimed(ts[..|ts| - 1], merges, matches); }
  }

  function MergedGroup<T>(name: string, group: seq<Source<T>>): Merged<T>
    requires group != []
  {
    Merged(name, group[0].kind, [|group|] + group[0].tensor.shape, group)
  }

  /** One merged tensor for each of the first n patterns that claims any. */
  function MergedGroups<T>(ts: seq<Source<T>>, merges: seq<Merge>, matches: (string, string) -> bool,
                           n: nat): seq<Merged<T>>
    requires n <= |merges|
  {
    if n == 0 then [] else
      var before, group := MergedGroups(ts, merges, matches, n - 1), Group(ts, merges, matches, n - 1);
      if group == [] then before else before + [MergedGroup(merges[n - 1].name, group)]
  }

  /** A stable first-match partition: each pattern's group and the rest, in input order. */
  method MergeTensors<T>(ts: seq<Source<T>>, merges: seq<Merge>, matches: (string, string) -> bool)
      returns (out: seq<Merged<T>>, rest: seq<Source<T>>)
    ensures out == MergedGroups(ts, merges, matches, |merges|)
    ensures rest == Group(ts, merges, matches, |merges|)
    ensures MergedMembers(out) + multiset(rest) == multiset(ts)
    ensures exists at :: OneForEach(ts, merges, matches, |merges|, out, at)
  {
    ghost var at := PatternsInOrder(ts, merges, matches, |merges|);
    MergeConserves(ts, merges, matches);
    out, rest := [], ts;
    AllUnclaimed(ts, merges, matches);
    for i := 0 to |merges|
      invariant out == MergedGroups(ts, merges, matches, i)
      invariant rest == Unclaimed(ts, merges, matches, i)
    {
      SplitOff(ts, merges, matches, i);
      var matched, unmatched := SlicesSplitFunc(rest, NameTest(merges[i].pattern, matches));
      rest := unmatched;
      if |matched| > 0 {
        var merged := Merged(merges[i].name, matched[0].kind, [|matched|] + matched[0].tensor.shape, matched);
        assert merged == MergedGroup(merges[i].name, matched);
        out := out + [merged];
      }
    }
  }

  /** All groups of the first n patterns together. */
  ghost function Grouped<T>(ts: seq<Source<T>>, merges: seq<Merge>, matches: (string, string) -> bool,
                            n: nat): multiset<Source<T>> {
    if n == 0 then multiset{} else
      Grouped(ts, merges, matches, n - 1) + multiset(Group(ts, merges, matches, n - 1))
  }

  lemma {:induction false} ClaimStep<T>(ts: seq<Source<T>>, merges: seq<Merge>, matches: (string, string) -> bool,
                                        i: nat)
    ensures multiset(Unclaimed(ts, merges, matches, i)) ==
            multiset(Group(ts, merges, matches, i)) + multiset(Unclaimed(ts, merges, matches, i + 1))
  {
    if ts != [] { ClaimStep(ts[..|ts| - 1], merges, matches, i); }
  }

  lemma {:induction false} ClaimSteps<T>(ts: seq<Source<T>>, merges: seq<Merge>, matches: (string, string) -> bool,
                                         n: nat)
    requires n <= |merges|
    ensures Grouped(ts, merges, matches, n) + multiset(Unclaimed(ts, merges, matches, n)) == multiset(ts)
  {
    if n == 0 {
      AllUnclaimed(ts, merges, matches);
    } else {
      ClaimSteps(ts, merges, matches, n - 1);
      ClaimStep(ts, merges, matches, n - 1);
    }
  }

  /** The groups and the rest together are the input, no tensor lost or repeated. */
  lemma MergeConserves<T>(ts: seq<Source<T>>, merges: seq<Merge>, matches: (string, string) -> bool)
    ensures Grouped(ts, merges, matches, |merges|) + multiset(Group(ts, merges, matches, |merges|)) == multiset(ts)
  {
    ClaimSteps(ts, merges, matches, |merges|);
    AllUnclaimed(ts, merges, matches);
  }

  /** All members of some merged tensors. */
  ghost function MergedMembers<T>(out: seq<Merged<T>>): multiset<Source<T>> {
    if out == [] then multiset{} else MergedMembers(out[..|out| - 1]) + multiset(out[|out| - 1].group)
  }

  /** Merged tensor m is that of pattern at[m]: the first n patterns that claim any tensor, in
      order, each with the tensors it is the first to match, under its name, with the kind of
      the first of them and their number in front of the shape of the first. */
  ghost predicate OneForEach<T>(ts: seq<Source<T>>, merges: seq<Merge>, matches: (string, string) -> bool, n: nat,
                                out: seq<Merged<T>>, at: seq<nat>)
  {
    && n <= |merges| && |at| == |out|
    && (forall j, k :: 0 <= j < k < |at| ==> at[j] < at[k])
    && (forall k :: 0 <= k < |at| ==>
          at[k] < n && MergedFrom(ts, merges, matches, at[k], out[k]))
    && (forall i :: 0 <= i < n && |Group(ts, merges, matches, i)| > 0 ==> i in at)
  }

  ghost predicate MergedFrom<T>(ts: seq<Source<T>>, merges: seq<Merge>, matches: (string, string) -> bool, i: nat,
                                merged: Merged<T>)
    requires i < |merges|
  {
    && merged.group == Group(ts, merges, matches, i) && |merged.group| > 0
    && merged.name == merges[i].name && merged.kind == merged.group[0].kind
    && merged.shape == [|merged.group|] + merged.group[0].tensor.shape
  }

  lemma {:induction false} PatternsInOrder<T>(ts: seq<Source<T>>, merges: seq<Merge>,
                                              matches: (string, string) -> bool, n: nat) returns (at: seq<nat>)
    requires n <= |merges|
    ensures OneForEach(ts, merges, matches, n, MergedGroups(ts, merges, matches, n), at)
    ensures MergedMembers(MergedGroups(ts, merges, matches, n)) == Grouped(ts, merges, matches, n)
  {
    hide Group, OneForEach;
    if n == 0 {
      at := [];
      NoPatterns(ts, merges, matches);
    } else {
      var before := PatternsInOrder(ts, merges, matches, n - 1);
      var out, group := MergedGroups(ts, merges, matches, n - 1), Group(ts, merges, matches, n - 1);
      if group == [] {
        at := before;
        PatternUnused(ts, merges, matches, n - 1, out, at);
      } else {
        at := before + [n - 1];
        PatternUsed(ts, merges, matches, n - 1, out, before);
        var merged := MergedGroup(merges[n - 1].name, group);
        assert (out + [merged])[..|out|] == out;
      }
    }
  }

  lemma NoPatterns<T>(ts: seq<Source<T>>, merges: seq<Merge>, matches: (string, string) -> bool)
    ensures OneForEach(ts, merges, matches, 0, [], [])
  {
  }

  lemma PatternUnused<T>(ts: seq<Source<T>>, merges: seq<Merge>, matches: (string, string) -> bool, n: nat,
                         out: seq<Merged<T>>, at: seq<nat>)
    requires n < |merges| && OneForEach(ts, merges, matches, n, out, at) && Group(ts, merges, matches, n) == []
    ensures OneForEach(ts, merges, matches, n + 1, out, at)
  {
    hide Group;
  }

  lemma {:induction false} PatternUsed<T>(ts: seq<Source<T>>, merges: seq<Merge>, matches: (string, string) -> bool,
                                          n: nat, out: seq<Merged<T>>, at: seq<nat>)
    requires n < |merges| && OneForEach(ts, merges, matches, n, out, at) && Group(ts, merges, matches, n) != []
    ensures OneForEach(ts, merges, matches, n + 1,
                       out + [MergedGroup(merges[n].name, Group(ts, merges, matches, n))], at + [n])
  {
    var group := Group(ts, merges, matches, n);
    var merged, more := MergedGroup(merges[n].name, group), at + [n];
    assert MergedFrom(ts, merges, matches, n, merged);
    hide Group, MergedFrom, MergedGroup;
    assert forall i :: i in at ==> i in more;
    assert more[|at|] == n && n in more;
    assert forall k :: 0 <= k < |at| ==> more[k] == at[k] && (out + [merged])[k] == out[k];
  }

  /** Input k lands in the group of its first match, after the earlier inputs of that group
      and before the later ones: relative order is kept. */
  lemma {:induction false} GroupPosition<T>(ts: seq<Source<T>>, merges: seq<Merge>, matches: (string, string) -> bool,
                                            k: nat)
    requires k < |ts|
    ensures var i := FirstMatch(merges, matches, ts[k].name);
            var at := |Group(ts[..k], merges, matches, i)|;
      && at < |Group(ts, merges, matches, i)|
      && Group(ts, merges, matches, i)[at] == ts[k]
      && Group(ts[..k], merges, matches, i) == Group(ts, merges, matches, i)[..at]
  {
    var front := ts[..|ts| - 1];
    if k < |front| {
      GroupPosition(front, merges, matches, k);
      assert front[..k] == ts[..k];
    }
  }

  // -- writing a group

  /** What a tensor's own writer does: all of its data, or an error. */
  datatype Writer<T> = Writer(source: Source<T>, failure: Option<string>)

  function Members<T>(g: seq<Writer<T>>): seq<Source<T>> {
    seq(|g|, j requires 0 <= j < |g| => g[j].source)
  }

  function WrittenBefore<T>(g: seq<Writer<T>>, n: nat): seq<T>
    requires n <= |g|
  {
    if n == 0 then [] else WrittenBefore(g, n - 1) + g[n - 1].source.tensor.data
  }

  /** Writes the members in order and stops at the first that fails. */
  method WriteGroup<T>(g: seq<Writer<T>>) returns (written: seq<T>, err: Option<string>)
    ensures err.None? <==> forall i :: 0 <= i < |g| ==> g[i].failure.None?
    ensures err.None? ==> written == WrittenBefore(g, |g|)
    ensures err.Some? ==> exists i :: 0 <= i < |g| && err == g[i].failure && written == WrittenBefore(g, i)
                                      && forall j :: 0 <= j < i ==> g[j].failure.None?
  {
    written := [];
    for i := 0 to |g|
      invariant written == WrittenBefore(g, i)
      invariant forall j :: 0 <= j < i ==> g[j].failure.None?
    {
      if g[i].failure.Some? { return written, g[i].failure; }
      written := written + g[i].source.tensor.data;
    }
    return written, None;
  }

  predicate AllWf<T>(group: seq<Source<T>>) {
    forall j :: 0 <= j < |group| ==> group[j].tensor.Wf()
  }

  predicate AllShaped<T>(group: seq<Source<T>>, s: Shape) {
    forall j :: 0 <= j < |group| ==> group[j].tensor.shape == s
  }

  /** Element counts of the first n members, added up. */
  function Sizes<T>(group: seq<Source<T>>, n: nat): nat
    requires n <= |group|
  {
    if n == 0 then 0 else Sizes(group, n - 1) + Size(group[n - 1].tensor.shape)
  }

  lemma {:induction false} WrittenSize<T>(g: seq<Writer<T>>, n: nat)
    requires AllWf(Members(g)) && n <= |g|
    ensures |WrittenBefore(g, n)| == Sizes(Members(g), n)
  {
    hide Size;
    if n > 0 {
      WrittenSize(g, n - 1);
      assert Members(g)[n - 1].tensor.Wf();
    }
  }

  lemma {:induction false} EqualSizes<T>(group: seq<Source<T>>, s: Shape, n: nat)
    requires AllShaped(group, s) && n <= |group|
    ensures Sizes(group, n) == Times(n, Size(s))
  {
    hide Times, Size;
    Units(Size(s));
    if n > 0 {
      EqualSizes(group, s, n - 1);
      Distribute(n - 1, 1, Size(s));
    }
  }

  /** As many elements are written as the merged tensor declares exactly if the sizes of the
      members add up to their number times the size of the first; so if they agree in shape. */
  lemma WrittenCount<T>(g: seq<Writer<T>>, name: string)
    requires g != [] && AllWf(Members(g))
    ensures var group := Members(g);
      && (Size(MergedGroup(name, group).shape) == |WrittenBefore(g, |g|)| <==>
          Sizes(group, |group|) == Times(|group|, Size(group[0].tensor.shape)))
      && (AllShaped(group, group[0].tensor.shape) ==>
            Size(MergedGroup(name, group).shape) == |WrittenBefore(g, |g|)|)
  {
    hide Times, Size;
    var group, s := Members(g), g[0].source.tensor.shape;
    WrittenSize(g, |g|);
    SizeAppend([|g|], s);
    Size1(|g|);
    if AllShaped(group, s) { EqualSizes(group, s, |g|); }
  }

  lemma {:induction false} WrittenBlock<T>(g: seq<Writer<T>>, s: Shape, n: nat, j: nat, k: nat)
    requires AllWf(Members(g)) && AllShaped(Members(g), s) && j < n <= |g| && k < Size(s)
    ensures Times(j, Size(s)) + k < |WrittenBefore(g, n)| && |g[j].source.tensor.data| == Size(s)
    ensures WrittenBefore(g, n)[Times(j, Size(s)) + k] == g[j].source.tensor.data[k]
  {
    hide Times, Size;
    WrittenSize(g, n);
    WrittenSize(g, n - 1);
    EqualSizes(Members(g), s, n);
    EqualSizes(Members(g), s, n - 1);
    Bound(j, k, n, Size(s));
    assert Members(g)[j].tensor.Wf() && Members(g)[j].tensor.shape == s;
    if j < n - 1 { WrittenBlock(g, s, n - 1, j, k); }
  }

  /** What is written is then the merged tensor in row-major order: its element [j] + idx is
      element idx of member j. */
  lemma WrittenIsStacked<T>(g: seq<Writer<T>>, name: string, j: nat, idx: Index)
      returns (merged: Tensor<T>, member: Tensor<T>)
    requires AllWf(Members(g)) && j < |g| && AllShaped(Members(g), g[0].source.tensor.shape)
    requires Within(g[0].source.tensor.shape, idx)
    ensures merged.Wf() && merged == Tensor(MergedGroup(name, Members(g)).shape, WrittenBefore(g, |g|))
    ensures member.Wf() && member == Members(g)[j].tensor && member.shape == g[0].source.tensor.shape
    ensures Within(merged.shape, [j] + idx) && merged.At([j] + idx) == member.At(idx)
  {
    hide Times, WrittenBefore, Size, Flat;
    var s := g[0].source.tensor.shape;
    merged := Tensor([|g|] + s, WrittenBefore(g, |g|));
    member := Members(g)[j].tensor;
    WrittenCount(g, name);
    WrittenBlock(g, s, |g|, j, Flat(s, idx));
    Flat1(|g|, j);
    FlatAppend([|g|], [j], s, idx);
  }
}
