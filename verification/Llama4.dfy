/** The llama4 converter: the fused gate and up weights of all experts are cut in half along
    their last dimension and each half, like the down weights, has its last two dimensions
    exchanged. */
module Llama4 {
  import opened Arith
  import opened Basics
  import Text = LlamaModel
  import opened RowMajor
  import opened SplitMerge

  const SWAP_LAST: seq<nat> := [0, 2, 1]

  /** `repack` with an optional slice of the last dimension. */
  function Repacked<T>(t: Tensor<T>, slice: Option<(nat, nat)>): (r: Result<Tensor<T>>)
    requires t.Wf() && |t.shape| >= 3 && (slice.Some? ==> slice.value.0 <= slice.value.1)
  {
    match slice
    case None => Permute(t, SWAP_LAST)
    case Some(range) =>
      var part :- Slice(t, 2, range.0, range.1);
      Permute(part, SWAP_LAST)
  }

  /** Where half i of the fused dimension starts. */
  function HalfStart(shape: Shape, i: nat): (lo: nat)
    requires |shape| >= 3 && i < 2
    ensures lo + shape[2] / 2 <= shape[2]
  {
    if i == 0 then 0 else shape[2] / 2
  }

  /** What the repacker of half i makes: 0 is the gate, 1 the up projection. */
  function Half<T>(t: Tensor<T>, i: nat): (r: Result<Tensor<T>>)
    requires t.Wf() && |t.shape| >= 3 && i < 2
  {
    Repacked(t, Some((HalfStart(t.shape, i), HalfStart(t.shape, i) + t.shape[2] / 2)))
  }

  lemma SwapLastPermutes(rank: nat)
    ensures Permutes(SWAP_LAST, rank) <==> rank == 3
    ensures Involutive(SWAP_LAST)
  {
    forall p: nat | p < 3 ensures p in SWAP_LAST {
      assert SWAP_LAST[0] == 0 && SWAP_LAST[1] == 2 && SWAP_LAST[2] == 1;
    }
  }

  /** Exchanging the last two axes: element [e, j, h] of the result is [e, h, j] before. */
  lemma SwapLastMoves<T>(t: Tensor<T>, p: Tensor<T>, e: nat, j: nat, h: nat)
    requires t.Wf() && Permute(t, SWAP_LAST) == Ok(p) && Within(p.shape, [e, j, h])
    ensures p.shape == [t.shape[0], t.shape[2], t.shape[1]]
    ensures Within(t.shape, [e, h, j]) && p.At([e, j, h]) == t.At([e, h, j])
  {
    PermuteAt(t, SWAP_LAST, p, [e, j, h]);
    var u := Unpermuted(SWAP_LAST, [e, j, h]);
    assert u[SWAP_LAST[0]] == e && u[SWAP_LAST[1]] == j && u[SWAP_LAST[2]] == h;
    assert u == [e, h, j];
    SwappedShape(t, p);
  }

  lemma SwappedShape<T>(t: Tensor<T>, p: Tensor<T>)
    requires t.Wf() && Permute(t, SWAP_LAST) == Ok(p)
    ensures |t.shape| == 3 && p.Wf() && p.shape == [t.shape[0], t.shape[2], t.shape[1]]
  {
    SwapLastPermutes(|t.shape|);
    assert p.shape[0] == t.shape[SWAP_LAST[0]] && p.shape[1] == t.shape[SWAP_LAST[1]]
        && p.shape[2] == t.shape[SWAP_LAST[2]];
  }

  /** The shape declared for a half: extents 1 and 2 exchanged, the fused one halved. */
  function HalfShape(shape: Shape): Shape
    requires |shape| >= 3
  {
    shape[1 := shape[2] / 2][2 := shape[1]]
  }

  lemma HalfCut<T>(t: Tensor<T>, i: nat) returns (part: Tensor<T>, half: Tensor<T>)
    requires t.Wf() && |t.shape| == 3 && i < 2
    ensures Slice(t, 2, HalfStart(t.shape, i), HalfStart(t.shape, i) + t.shape[2] / 2) == Ok(part)
    ensures part.Wf() && Permute(part, SWAP_LAST) == Ok(half) && Half(t, i) == Ok(half)
    ensures half.Wf() && half.shape == HalfShape(t.shape)
  {
    hide Slice, Permute, Size;
    part, half := SlicedAndSwapped(t, HalfStart(t.shape, i), HalfStart(t.shape, i) + t.shape[2] / 2);
  }

  lemma SlicedAndSwapped<T>(t: Tensor<T>, lo: nat, hi: nat) returns (part: Tensor<T>, out: Tensor<T>)
    requires t.Wf() && |t.shape| == 3 && lo <= hi <= t.shape[2]
    ensures Slice(t, 2, lo, hi) == Ok(part) && part.Wf()
    ensures Permute(part, SWAP_LAST) == Ok(out) && Repacked(t, Some((lo, hi))) == Ok(out)
    ensures out.Wf() && out.shape == [t.shape[0], hi - lo, t.shape[1]]
  {
    part := Slice(t, 2, lo, hi).value;
    SwapLastPermutes(3);
    out := Permute(part, SWAP_LAST).value;
    SwappedShape(part, out);
  }

  /** gate[e, j, h] is in[e, h, j] and up[e, j, h] is in[e, h, half + j]. */
  lemma HalfElement<T>(t: Tensor<T>, i: nat, e: nat, j: nat, h: nat) returns (half: Tensor<T>)
    requires t.Wf() && |t.shape| == 3 && i < 2
    requires Within(HalfShape(t.shape), [e, j, h])
    ensures Half(t, i) == Ok(half) && half.Wf() && half.shape == HalfShape(t.shape)
    ensures Within(t.shape, [e, h, HalfStart(t.shape, i) + j])
    ensures half.At([e, j, h]) == t.At([e, h, HalfStart(t.shape, i) + j])
  {
    hide Half, Slice, Permute;
    var part;
    part, half := HalfCut(t, i);
    SlicedElement(t, HalfStart(t.shape, i), HalfStart(t.shape, i) + t.shape[2] / 2, part, half, e, j, h);
  }

  ghost predicate SameElement<T>(a: Tensor<T>, i: Index, b: Tensor<T>, j: Index) {
    a.Wf() && b.Wf() && Within(a.shape, i) && Within(b.shape, j) && a.At(i) == b.At(j)
  }

  lemma SlicedElement<T>(t: Tensor<T>, lo: nat, hi: nat, part: Tensor<T>, out: Tensor<T>, e: nat, j: nat, h: nat)
    requires t.Wf() && |t.shape| == 3 && lo <= hi && Slice(t, 2, lo, hi) == Ok(part)
    requires part.Wf() && Permute(part, SWAP_LAST) == Ok(out) && Within(out.shape, [e, j, h])
    ensures SameElement(out, [e, j, h], t, [e, h, lo + j])
  {
    hide Slice, Permute, Flat, Unflat, Size, Within;
    SwapLastMoves(part, out, e, j, h);
    SliceAt(t, 2, lo, hi, part, [e, h, j]);
    assert [e, h, j][2 := lo + j] == [e, h, lo + j];
  }

  /** Every position of an even fused dimension belongs to one half, at one place. */
  lemma FusedPositionOnce(shape: Shape, p: nat, i: nat, j: nat)
    requires |shape| == 3 && shape[2] % 2 == 0 && p < shape[2] && i < 2 && j < shape[2] / 2
    ensures p == HalfStart(shape, i) + j <==>
            (i, j) == (if p < shape[2] / 2 then (0, p) else (1, p - shape[2] / 2))
  {
  }

  /** The fused tensor put together again from its two halves. */
  function Fused<T>(gate: Tensor<T>, up: Tensor<T>): (r: Result<Tensor<T>>)
    requires gate.Wf() && up.Wf()
  {
    var g :- Permute(gate, SWAP_LAST);
    var u :- Permute(up, SWAP_LAST);
    Concat(2, g, u)
  }

  /** Nothing is lost exactly when the fused dimension is even. */
  lemma FusedRoundTrip<T>(t: Tensor<T>) returns (gate: Tensor<T>, up: Tensor<T>)
    requires t.Wf() && |t.shape| == 3
    ensures Half(t, 0) == Ok(gate) && Half(t, 1) == Ok(up) && gate.Wf() && up.Wf()
    ensures gate.shape == up.shape == HalfShape(t.shape)
    ensures Fused(gate, up) == Ok(t) <==> t.shape[2] % 2 == 0
  {
    var a, b;
    a, gate := HalfCut(t, 0);
    b, up := HalfCut(t, 1);
    SwapLastPermutes(3);
    PermuteTwice(a, SWAP_LAST, gate);
    PermuteTwice(b, SWAP_LAST, up);
    JoinHalves(t, a, b);
  }

  lemma JoinHalves<T>(t: Tensor<T>, a: Tensor<T>, b: Tensor<T>)
    requires t.Wf() && |t.shape| == 3
    requires Slice(t, 2, 0, t.shape[2] / 2) == Ok(a)
    requires Slice(t, 2, t.shape[2] / 2, t.shape[2] / 2 + t.shape[2] / 2) == Ok(b)
    ensures Concat(2, a, b) == Ok(t) <==> t.shape[2] % 2 == 0
  {
    var n := t.shape[2] / 2;
    JoinSlices(t, 2, 0, n, n + n, a, b);
    if t.shape[2] % 2 == 0 { WholeSlice(t, 2); }
  }

  /** Down weights only have their last two dimensions exchanged, which undoes itself. */
  lemma DownRoundTrip<T>(t: Tensor<T>) returns (down: Tensor<T>)
    requires t.Wf() && |t.shape| == 3
    ensures Repacked(t, None) == Ok(down) && down.Wf()
    ensures down.shape == t.shape[1 := t.shape[2]][2 := t.shape[1]]
    ensures Repacked(down, None) == Ok(t)
  {
    hide Size, Flat, Unflat;
    SwapLastPermutes(3);
    down := Permute(t, SWAP_LAST).value;
    SwappedShape(t, down);
    PermuteTwice(t, SWAP_LAST, down);
  }

  // ---------------------------------------------------------------- the converter

  predicate HasPrefix(s: string, prefix: string) { prefix <= s }

  predicate Contains(s: string, part: string) {
    exists i :: 0 <= i <= |s| && part <= s[i..]
  }

  predicate IsVision(name: string) { HasPrefix(name, "v.") || HasPrefix(name, "mm.") }

  predicate IsFused(name: string) { !IsVision(name) && Contains(name, "ffn_gate_up_exps") }

  predicate IsDown(name: string) {
    !IsVision(name) && !IsFused(name) && Contains(name, "ffn_down_exps")
  }

  predicate IsText(name: string) { !IsVision(name) && !IsFused(name) && !IsDown(name) }

  function Kept<T>(t: Source<T>): Output<T> { Output(t.name, t.kind, t.tensor.shape, Ok(t.tensor.data)) }

  function HalfOutput<T>(t: Source<T>, i: nat, name: string): Output<T>
    requires t.tensor.Wf() && |t.tensor.shape| >= 3 && i < 2
  {
    Output(name, t.kind, HalfShape(t.tensor.shape), Flattened(Half(t.tensor, i)))
  }

  /** What the loop appends for one tensor; text tensors are set aside for later.  `rename`
      stands for replacing the fused part of a name by the given one. */
  function Converted<T>(t: Source<T>, rename: (string, string) -> string): seq<Output<T>>
    requires t.tensor.Wf() && (IsFused(t.name) || IsDown(t.name) ==> |t.tensor.shape| >= 3)
  {
    if IsVision(t.name) then [Kept(t)]
    else if IsFused(t.name) then
      [HalfOutput(t, 0, rename(t.name, "ffn_gate_exps")), HalfOutput(t, 1, rename(t.name, "ffn_up_exps"))]
    else if IsDown(t.name) then
      var s := t.tensor.shape;
      [Output(t.name, t.kind, s[1 := s[2]][2 := s[1]], Flattened(Repacked(t.tensor, None)))]
    else []
  }

  predicate Convertible<T>(ts: seq<Source<T>>) {
    forall k :: 0 <= k < |ts| ==>
      ts[k].tensor.Wf() && (IsFused(ts[k].name) || IsDown(ts[k].name) ==> |ts[k].tensor.shape| >= 3)
  }

  function ConvertedAll<T>(ts: seq<Source<T>>, rename: (string, string) -> string): seq<Output<T>>
    requires Convertible(ts)
  {
    if ts == [] then [] else ConvertedAll(ts[..|ts| - 1], rename) + Converted(ts[|ts| - 1], rename)
  }

  function TextOnly<T>(ts: seq<Source<T>>): seq<Source<T>> {
    if ts == [] then [] else
      var front, t := TextOnly(ts[..|ts| - 1]), ts[|ts| - 1];
      if IsText(t.name) then front + [t] else front
  }

  /** Vision and expert tensors in input order, then what the text model hands on for the text
      tensors: its rope factors, if there are any, and the tensors unchanged. */
  method Tensors(text: Text.LlamaModel, ts: seq<Source<Text.Float>>, rename: (string, string) -> string)
      returns (out: seq<Output<Text.Float>>)
    requires Convertible(ts)
    modifies text`skipRepack
    ensures text.skipRepack
    ensures var converted, others := ConvertedAll(ts, rename), TextOnly(ts);
            var ropes := if text.factors == [] then [] else [Text.RopeTensor(text.factors)];
      && |out| == |converted| + |ropes| + |others| && out[..|converted| + |ropes|] == converted + ropes
      && forall k :: 0 <= k < |others| ==> out[|converted| + |ropes| + k] == Kept(others[k])
  {
    out := [];
    var textTensors: seq<Source<Text.Float>> := [];
    for k := 0 to |ts|
      invariant out == ConvertedAll(ts[..k], rename) && textTensors == TextOnly(ts[..k])
    {
      var t := ts[k];
      assert ts[..k + 1][..k] == ts[..k];
      var appended := ConvertOne(t, rename);
      out := out + appended;
      if IsText(t.name) {
        textTensors := textTensors + [t];
      }
    }
    assert ts[..|ts|] == ts;
    TextIsWf(ts);
    text.skipRepack := true;
    var handedOn := text.Tensors(textTensors);
    out := out + handedOn;
  }

  lemma {:induction false} TextIsWf<T>(ts: seq<Source<T>>)
    requires Convertible(ts)
    ensures AllWf(TextOnly(ts))
  {
    if ts != [] { TextIsWf(ts[..|ts| - 1]); }
  }

  lemma AllConvertible<T>(ts: seq<Source<T>>, us: seq<Source<T>>)
    requires Convertible(ts) && Convertible(us)
    ensures Convertible(ts + us)
  {
    hide IsFused, IsDown;
    assert forall k :: 0 <= k < |ts + us| ==> (ts + us)[k] == if k < |ts| then ts[k] else us[k - |ts|];
  }

  /** The outputs keep the order of the tensors, and so do the text tensors set aside. */
  lemma {:induction false} ConvertedInOrder<T>(ts: seq<Source<T>>, us: seq<Source<T>>,
                                               rename: (string, string) -> string)
    requires Convertible(ts) && Convertible(us)
    ensures Convertible(ts + us)
    ensures ConvertedAll(ts + us, rename) == ConvertedAll(ts, rename) + ConvertedAll(us, rename)
    ensures TextOnly(ts + us) == TextOnly(ts) + TextOnly(us)
    decreases |us|
  {
    hide Converted, IsText, IsFused, IsDown;
    AllConvertible(ts, us);
    if us == [] {
      assert ts + us == ts;
    } else {
      assert (ts + us)[..|ts + us| - 1] == ts + us[..|us| - 1];
      ConvertedInOrder(ts, us[..|us| - 1], rename);
    }
  }

  // -- no element lost

  /** Declared elements of all outputs together. */
  function Elements<T>(outs: seq<Output<T>>): nat {
    if outs == [] then 0 else Elements(outs[..|outs| - 1]) + Size(outs[|outs| - 1].shape)
  }

  lemma {:induction false} ElementsAppend<T>(xs: seq<Output<T>>, ys: seq<Output<T>>)
    ensures Elements(xs + ys) == Elements(xs) + Elements(ys)
  {
    hide Size;
    if ys == [] {
      assert xs + ys == xs;
    } else {
      assert (xs + ys)[..|xs + ys| - 1] == xs + ys[..|ys| - 1];
      ElementsAppend(xs, ys[..|ys| - 1]);
    }
  }

  /** A fused tensor keeps all its elements if its last extent is even or it has none. */
  predicate Lossless(name: string, shape: Shape) {
    IsFused(name) && |shape| >= 3 ==> shape[2] % 2 == 0 || Size(shape[2 := 1]) == 0
  }

  lemma SizeAt2(shape: Shape, x: nat)
    requires |shape| >= 3
    ensures Size(shape[2 := x]) == Times(x, Size(shape[2 := 1]))
  {
    hide Times, Size;
    var front, tail := shape[..2], shape[3..];
    assert shape[2 := x] == front + ([x] + tail) && shape[2 := 1] == front + ([1] + tail);
    SizeAppend(front, [x] + tail);
    SizeAppend(front, [1] + tail);
    SizeAppend([x], tail);
    SizeAppend([1], tail);
    Size1(x);
    Size1(1);
    Units(Size(tail));
    Associate(Size(front), x, Size(tail));
    Commute(Size(front), x);
    Associate(x, Size(front), Size(tail));
  }

  lemma SwappedSize(shape: Shape)
    requires |shape| >= 3
    ensures Size(shape[1 := shape[2]][2 := shape[1]]) == Size(shape)
  {
    hide Times, Size;
    var a, b, c, tail := [shape[0]], shape[1], shape[2], shape[3..];
    assert shape == a + ([b] + ([c] + tail));
    assert shape[1 := c][2 := b] == a + ([c] + ([b] + tail));
    SizeAppend(a, [b] + ([c] + tail));
    SizeAppend(a, [c] + ([b] + tail));
    SizeAppend([b], [c] + tail);
    SizeAppend([c], [b] + tail);
    SizeAppend([c], tail);
    SizeAppend([b], tail);
    Size1(b);
    Size1(c);
    Associate(b, c, Size(tail));
    Associate(c, b, Size(tail));
    Commute(b, c);
  }

  lemma TwoHalves(c: nat, p: nat)
    ensures 2 * Times(c / 2, p) <= Times(c, p)
    ensures 2 * Times(c / 2, p) == Times(c, p) <==> c % 2 == 0 || p == 0
  {
    var h := c / 2;
    assert c == 2 * h + c % 2;
    assert c * p == 2 * (h * p) + (c % 2) * p;
  }

  /** The outputs for one tensor declare as many elements as it has, exactly unless it is a
      fused tensor of odd extent; then they declare fewer. */
  lemma ConvertedElements<T>(t: Source<T>, rename: (string, string) -> string)
    requires t.tensor.Wf() && (IsFused(t.name) || IsDown(t.name) ==> |t.tensor.shape| >= 3)
    ensures var n := Elements(Converted(t, rename)) + (if IsText(t.name) then Size(t.tensor.shape) else 0);
      n <= Size(t.tensor.shape) && (n == Size(t.tensor.shape) <==> Lossless(t.name, t.tensor.shape))
  {
    hide Size, Times, Half, Repacked, Flattened;
    var s, outs := t.tensor.shape, Converted(t, rename);
    if IsFused(t.name) {
      assert outs == [outs[0]] + [outs[1]];
      ElementsAppend([outs[0]], [outs[1]]);
      OneOutput(outs[0]);
      OneOutput(outs[1]);
      var halved := s[2 := s[2] / 2];
      assert HalfShape(s) == halved[1 := halved[2]][2 := halved[1]];
      SwappedSize(halved);
      SizeAt2(s, s[2] / 2);
      SizeAt2(s, s[2]);
      assert s[2 := s[2]] == s;
      TwoHalves(s[2], Size(s[2 := 1]));
    } else if !IsText(t.name) {
      OneOutput(outs[0]);
      if IsDown(t.name) { SwappedSize(s); }
    }
  }

  lemma OneOutput<T>(out: Output<T>)
    ensures Elements([out]) == Size(out.shape)
  {
    assert [out][..0] == [];
  }

  /** Over a whole model no element is lost exactly if every fused tensor is lossless. */
  lemma {:induction false} ConversionConserves<T>(ts: seq<Source<T>>, rename: (string, string) -> string)
    requires Convertible(ts)
    ensures var n := Elements(ConvertedAll(ts, rename)) + Sizes(TextOnly(ts), |TextOnly(ts)|);
      && n <= Sizes(ts, |ts|)
      && (n == Sizes(ts, |ts|) <==> forall k :: 0 <= k < |ts| ==> Lossless(ts[k].name, ts[k].tensor.shape))
  {
    hide Size, Lossless, Converted, IsText;
    if ts != [] {
      var front, t := ts[..|ts| - 1], ts[|ts| - 1];
      ConversionConserves(front, rename);
      ConvertedElements(t, rename);
      ElementsAppend(ConvertedAll(front, rename), Converted(t, rename));
      SizesOfPrefix(ts, front, |front|);
      var text := TextOnly(front);
      if IsText(t.name) { SizesOfPrefix(text + [t], text, |text|); }
      assert forall k :: 0 <= k < |ts| ==> ts[k] == if k < |front| then front[k] else t;
    }
  }

  lemma {:induction false} SizesOfPrefix<T>(ts: seq<Source<T>>, front: seq<Source<T>>, n: nat)
    requires n <= |front| <= |ts| && front == ts[..|front|]
    ensures Sizes(ts, n) == Sizes(front, n)
  {
    hide Size;
    if n > 0 { SizesOfPrefix(ts, front, n - 1); }
  }

  // -- one tensor

  method ConvertOne<T>(t: Source<T>, rename: (string, string) -> string) returns (out: seq<Output<T>>)
    requires t.tensor.Wf() && (IsFused(t.name) || IsDown(t.name) ==> |t.tensor.shape| >= 3)
    ensures out == Converted(t, rename)
    ensures var n := t.name;
            var vision := HasPrefix(n, "v.") || HasPrefix(n, "mm.");
            var fused := !vision && Contains(n, "ffn_gate_up_exps");
            var down := !vision && !fused && Contains(n, "ffn_down_exps");
      && (vision ==> out == [Output(n, t.kind, t.tensor.shape, Ok(t.tensor.data))])
      && (fused ==> |out| == 2 && HoldsHalf(t, 0, out[0]) && HoldsHalf(t, 1, out[1])
                    && out[0].name == rename(n, "ffn_gate_exps") && out[1].name == rename(n, "ffn_up_exps"))
      && (down ==> |out| == 1 && HoldsDown(t, out[0]))
      && (!vision && !fused && !down ==> out == [])
  {
    hide HoldsHalf, HoldsDown, HasPrefix, Contains, Half, Repacked;
    if IsFused(t.name) {
      HalfOutputHolds(t, 0, rename(t.name, "ffn_gate_exps"));
      HalfOutputHolds(t, 1, rename(t.name, "ffn_up_exps"));
    }
    out := [];
    if IsVision(t.name) {
      out := out + [Kept(t)];
    } else if IsFused(t.name) {
      out := ConvertFused(t, rename);
    } else if IsDown(t.name) {
      var newShape := t.tensor.shape;
      newShape := newShape[1 := newShape[2]][2 := newShape[1]];
      out := out + [Output(t.name, t.kind, newShape, Flattened(Repacked(t.tensor, None)))];
      DownOutputHolds(t, out[0]);
    }
  }

  method ConvertFused<T>(t: Source<T>, rename: (string, string) -> string) returns (out: seq<Output<T>>)
    requires t.tensor.Wf() && |t.tensor.shape| >= 3
    ensures out == [HalfOutput(t, 0, rename(t.name, "ffn_gate_exps")), HalfOutput(t, 1, rename(t.name, "ffn_up_exps"))]
  {
    hide Slice, Permute;
    var halfDim := t.tensor.shape[2] / 2;
    var newShape := t.tensor.shape;
    newShape := newShape[1 := newShape[2] / 2][2 := newShape[1]];
    var names := ["ffn_gate_exps", "ffn_up_exps"];
    out := [];
    for i := 0 to 2
      invariant |out| == i
      invariant forall j :: 0 <= j < i ==> out[j] == HalfOutput(t, j, rename(t.name, names[j]))
    {
      HalfRange(t.tensor.shape, i);
      var data := Repacked(t.tensor, Some((i * halfDim, (i + 1) * halfDim)));
      out := out + [Output(rename(t.name, names[i]), t.kind, newShape, Flattened(data))];
    }
  }

  /** Output i of a fused tensor of rank three holds half i of its last dimension, with the last
      two dimensions exchanged; of any other rank it is an error. */
  ghost predicate HoldsHalf<T>(t: Source<T>, i: nat, out: Output<T>)
    requires t.tensor.Wf() && |t.tensor.shape| >= 3 && i < 2
  {
    var s, half, lo := t.tensor.shape, t.tensor.shape[2] / 2, if i == 0 then 0 else t.tensor.shape[2] / 2;
    && out.kind == t.kind && out.shape == s[1 := half][2 := s[1]] && (out.data.Ok? <==> |s| == 3)
    && (|s| == 3 ==>
          && |out.data.value| == Size(out.shape)
          && forall e: nat, j: nat, h: nat :: Within(out.shape, [e, j, h]) ==>
               && Within(s, [e, h, lo + j])
               && Tensor(out.shape, out.data.value).At([e, j, h]) == t.tensor.At([e, h, lo + j]))
  }

  lemma HalfOutputHolds<T>(t: Source<T>, i: nat, name: string)
    requires t.tensor.Wf() && |t.tensor.shape| >= 3 && i < 2
    ensures HoldsHalf(t, i, HalfOutput(t, i, name))
  {
    hide Slice, Size, Flat, Unflat, Within, Permute, Half;
    var s, lo, out := t.tensor.shape, HalfStart(t.tensor.shape, i), HalfOutput(t, i, name);
    HalfNeedsRankThree(t.tensor, i);
    if |s| == 3 {
      var cut, made := HalfCut(t.tensor, i);
      assert Tensor(out.shape, out.data.value) == made;
      forall e: nat, j: nat, h: nat | Within(out.shape, [e, j, h])
        ensures Within(s, [e, h, lo + j])
        ensures Tensor(out.shape, out.data.value).At([e, j, h]) == t.tensor.At([e, h, lo + j])
      {
        var element := HalfElement(t.tensor, i, e, j, h);
      }
    }
  }

  lemma HalfNeedsRankThree<T>(t: Tensor<T>, i: nat)
    requires t.Wf() && |t.shape| >= 3 && i < 2
    ensures Half(t, i).Ok? <==> |t.shape| == 3
  {
    hide Slice;
    var lo := HalfStart(t.shape, i);
    var part := Slice(t, 2, lo, lo + t.shape[2] / 2).value;
    SwapLastPermutes(|part.shape|);
  }

  /** Down weights of rank three with their last two dimensions exchanged. */
  ghost predicate HoldsDown<T>(t: Source<T>, out: Output<T>)
    requires t.tensor.Wf() && |t.tensor.shape| >= 3
  {
    var s := t.tensor.shape;
    && out.name == t.name && out.kind == t.kind && out.shape == s[1 := s[2]][2 := s[1]]
    && (out.data.Ok? <==> |s| == 3)
    && (|s| == 3 ==>
          && |out.data.value| == Size(out.shape)
          && forall e: nat, j: nat, h: nat :: Within(out.shape, [e, j, h]) ==>
               && Within(s, [e, h, j])
               && Tensor(out.shape, out.data.value).At([e, j, h]) == t.tensor.At([e, h, j]))
  }

  lemma DownOutputHolds<T>(t: Source<T>, out: Output<T>)
    requires t.tensor.Wf() && |t.tensor.shape| >= 3
    requires var s := t.tensor.shape;
      out == Output(t.name, t.kind, s[1 := s[2]][2 := s[1]], Flattened(Repacked(t.tensor, None)))
    ensures HoldsDown(t, out)
  {
    hide Size, Flat, Unflat;
    var s := t.tensor.shape;
    SwapLastPermutes(|s|);
    if |s| == 3 {
      var down := DownRoundTrip(t.tensor);
      forall e: nat, j: nat, h: nat | Within(out.shape, [e, j, h])
        ensures Within(s, [e, h, j])
        ensures Tensor(out.shape, out.data.value).At([e, j, h]) == t.tensor.At([e, h, j])
      {
        SwapLastMoves(t.tensor, down, e, j, h);
      }
    }
  }

  lemma HalfRange(shape: Shape, i: nat)
    requires |shape| >= 3 && i < 2
    ensures i * (shape[2] / 2) == HalfStart(shape, i)
    ensures (i + 1) * (shape[2] / 2) == HalfStart(shape, i) + shape[2] / 2
  {
  }
}
