/** The converter object of the llama family: `repack` as it runs, the llama3 rope factors,
    and the tensors it hands on. */
module LlamaModel {
  import Arith
  import opened Basics
  import opened RowMajor
  import opened Llama
  import opened SplitMerge

  /** A 32-bit float: a real, or what a division by zero leaves, which is not modelled. */
  type Float = Option<real>

  function OrReal(x: real, default: real): real { if x != 0.0 then x else default }

  // ---------------------------------------------------------------- rope factors, on values

  datatype Scaling = Scaling(factor: real, low: real, high: real, original: real)

  predicate Sensible(s: Scaling) {
    1.0 <= s.factor && 0.0 < s.low < s.high && 0.0 < s.original
  }

  lemma ScaleOrder(x: real, y: real, z: real)
    requires 0.0 < z
    ensures x <= y <==> x * z <= y * z
  {
    assert (y - x) * z == y * z - x * z;
    Arith.SignOfProduct(y - x, z);
  }

  /** o / b <= l exactly when o / l <= b. */
  lemma SwapDivisor(o: real, l: real, b: real)
    requires 0.0 < l && 0.0 < b
    ensures o / b <= l <==> o / l <= b
    ensures l <= o / b <==> b <= o / l
  {
    var p, q := o / b, o / l;
    assert p * b == o && q * l == o;
    ScaleOrder(p, l, b);
    ScaleOrder(l, p, b);
    ScaleOrder(q, b, l);
    ScaleOrder(b, q, l);
  }

  lemma DivOrder(x: real, y: real, z: real)
    requires 0.0 < z
    ensures x <= y <==> x / z <= y / z
  {
    var p, q := x / z, y / z;
    assert p * z == x && q * z == y;
    ScaleOrder(p, q, z);
  }

  /** Where a wavelength lies between the long bound (0) and the short bound (1). */
  function Smooth(s: Scaling, wavelength: real): real
    requires wavelength != 0.0 && s.high != s.low
  {
    (s.original / wavelength - s.low) / (s.high - s.low)
  }

  lemma SmoothRange(s: Scaling, wavelength: real)
    requires Sensible(s) && 0.0 < wavelength && s.original / s.high <= wavelength <= s.original / s.low
    ensures 0.0 <= Smooth(s, wavelength) <= 1.0
  {
    SwapDivisor(s.original, wavelength, s.high);
    SwapDivisor(s.original, wavelength, s.low);
    DivOrder(0.0, s.original / wavelength - s.low, s.high - s.low);
    DivOrder(s.original / wavelength - s.low, s.high - s.low, s.high - s.low);
  }

  function Denominator(factor: real, smooth: real): real
    requires factor != 0.0
  {
    (1.0 - smooth) / factor + smooth
  }

  lemma DenominatorLaw(factor: real, smooth: real)
    requires 1.0 <= factor && 0.0 <= smooth <= 1.0
    ensures Denominator(factor, smooth) * factor == 1.0 + smooth * (factor - 1.0)
    ensures 0.0 < Denominator(factor, smooth)
  {
    var r := (1.0 - smooth) / factor;
    assert r * factor == 1.0 - smooth;
    assert (r + smooth) * factor == 1.0 - smooth + smooth * factor;
    assert 0.0 <= smooth * (factor - 1.0);
    Arith.SignOfProduct(-(r + smooth), factor);
  }

  /** The factor for one wavelength: 1 below the short bound, `factor` above the long one,
      and the reciprocal of a blend of the two between them, unless that divides by zero. */
  function RopeFactor(s: Scaling, wavelength: real): Float
    requires s.factor != 0.0 && s.low != 0.0 && s.high != 0.0
  {
    if wavelength < s.original / s.high then Some(1.0)
    else if wavelength > s.original / s.low then Some(s.factor)
    else if wavelength == 0.0 || s.high == s.low || Denominator(s.factor, Smooth(s, wavelength)) == 0.0 then None
    else Some(1.0 / Denominator(s.factor, Smooth(s, wavelength)))
  }

  /** Between the bounds the reciprocal of the factor runs evenly in the frequency original /
      wavelength, from 1 / factor at `low` to 1 at `high`. */
  lemma BlendLaw(s: Scaling, wavelength: real)
    requires Sensible(s) && 0.0 < wavelength && s.original / s.high <= wavelength <= s.original / s.low
    ensures RopeFactor(s, wavelength).Some?
    ensures var f, frequency := RopeFactor(s, wavelength).value, s.original / wavelength;
      f * ((s.high - frequency) / s.factor + (frequency - s.low)) == s.high - s.low
  {
    SmoothRange(s, wavelength);
    DenominatorLaw(s.factor, Smooth(s, wavelength));
    var q, span, x := s.original / wavelength, s.high - s.low, Smooth(s, wavelength);
    var d := Denominator(s.factor, x);
    assert x * span == q - s.low;
    assert (1.0 / d) * d == 1.0;
    var r := (1.0 - x) / s.factor;
    assert r * s.factor == 1.0 - x;
    assert (s.high - q) == (1.0 - x) * span;
    Scaled(1.0 - x, span, s.factor);
    assert (r + x) * span == r * span + x * span;
    Arith.Regrouped(1.0 / d, d, span);
  }

  lemma Scaled(x: real, y: real, z: real)
    requires z != 0.0
    ensures x * y / z == (x / z) * y
  {
    var q := x / z;
    assert q * z == x;
    Arith.Regrouped(q, z, y);
    Arith.Regrouped(q, y, z);
  }

  lemma Reciprocals(d: real, e: real)
    requires 0.0 < d <= e
    ensures 1.0 / e <= 1.0 / d
  {
    var q, p := 1.0 / e, 1.0 / d;
    assert q * e == 1.0 && p * d == 1.0;
    Arith.SignOfProduct(q, e);
    assert 0.0 <= (e - d) * q;
    ScaleOrder(q, p, d);
  }

  lemma DenominatorOrder(factor: real, x: real, y: real)
    requires 1.0 <= factor && 0.0 <= x <= y <= 1.0
    ensures Denominator(factor, x) <= Denominator(factor, y)
  {
    var d, e := Denominator(factor, x), Denominator(factor, y);
    DenominatorLaw(factor, x);
    DenominatorLaw(factor, y);
    assert 0.0 <= (y - x) * (factor - 1.0) == e * factor - d * factor;
    ScaleOrder(d, e, factor);
  }

  lemma BlendEnds(factor: real)
    requires 1.0 <= factor
    ensures 0.0 < Denominator(factor, 0.0) && 0.0 < Denominator(factor, 1.0)
    ensures 1.0 / Denominator(factor, 0.0) == factor && 1.0 / Denominator(factor, 1.0) == 1.0
  {
    var d, e := Denominator(factor, 0.0), Denominator(factor, 1.0);
    DenominatorLaw(factor, 0.0);
    DenominatorLaw(factor, 1.0);
    assert d * factor == 1.0;
    assert 1.0 / d == factor by { assert (1.0 / d) * d == 1.0; Cancel(1.0 / d, factor, d); }
    assert e * factor == factor;
    Cancel(e, 1.0, factor);
  }

  lemma Cancel(x: real, y: real, z: real)
    requires 0.0 < z && x * z == y * z
    ensures x == y
  {
    ScaleOrder(x, y, z);
    ScaleOrder(y, x, z);
  }

  /** Between its ends the blend runs from `factor` down to 1, never rising. */
  lemma BlendOrder(factor: real, x: real, y: real)
    requires 1.0 <= factor && 0.0 <= x <= y <= 1.0
    ensures 0.0 < Denominator(factor, x) && 0.0 < Denominator(factor, y)
    ensures 1.0 <= 1.0 / Denominator(factor, y) <= 1.0 / Denominator(factor, x) <= factor
  {
    DenominatorLaw(factor, x);
    DenominatorLaw(factor, y);
    BlendEnds(factor);
    DenominatorOrder(factor, 0.0, x);
    DenominatorOrder(factor, x, y);
    DenominatorOrder(factor, y, 1.0);
    Reciprocals(Denominator(factor, 0.0), Denominator(factor, x));
    Reciprocals(Denominator(factor, x), Denominator(factor, y));
    Reciprocals(Denominator(factor, y), Denominator(factor, 1.0));
  }

  lemma SmoothOrder(s: Scaling, shorter: real, longer: real)
    requires Sensible(s) && 0.0 < shorter <= longer && s.original / s.high <= shorter && longer <= s.original / s.low
    ensures Smooth(s, longer) <= Smooth(s, shorter)
  {
    var p, q := s.original / shorter, s.original / longer;
    Reciprocals(shorter, longer);
    assert p == s.original * (1.0 / shorter) && q == s.original * (1.0 / longer);
    ScaleOrder(1.0 / longer, 1.0 / shorter, s.original);
    assert q <= p;
    DivOrder(q - s.low, p - s.low, s.high - s.low);
  }

  /** Every factor lies in [1, factor] and longer wavelengths never get a smaller one. */
  lemma RopeFactorOrder(s: Scaling, shorter: real, longer: real)
    requires Sensible(s) && 0.0 < shorter <= longer
    ensures RopeFactor(s, shorter).Some? && RopeFactor(s, longer).Some?
    ensures 1.0 <= RopeFactor(s, shorter).value <= RopeFactor(s, longer).value <= s.factor
  {
    hide Smooth, Denominator;
    BoundOrder(s);
    if s.original / s.high <= shorter <= s.original / s.low {
      SmoothRange(s, shorter);
      BlendOrder(s.factor, Smooth(s, shorter), Smooth(s, shorter));
      if longer <= s.original / s.low {
        SmoothRange(s, longer);
        SmoothOrder(s, shorter, longer);
        BlendOrder(s.factor, Smooth(s, longer), Smooth(s, shorter));
      }
    } else if s.original / s.high <= longer <= s.original / s.low {
      SmoothRange(s, longer);
      BlendOrder(s.factor, Smooth(s, longer), Smooth(s, longer));
    }
  }

  lemma BoundOrder(s: Scaling)
    requires Sensible(s)
    ensures 0.0 < s.original / s.high < s.original / s.low
  {
    var p, q := s.original / s.high, s.original / s.low;
    assert p * s.high == s.original && q * s.low == s.original;
    ScaleOrder(p, 0.0, s.high);
    ScaleOrder(q, p, s.low);
    assert 0.0 < p * (s.high - s.low);
  }

  /** The blend meets the two constant pieces at the boundaries. */
  lemma RopeFactorIsContinuousAtBounds(s: Scaling)
    requires Sensible(s)
    ensures 0.0 < s.original / s.high < s.original / s.low
    ensures RopeFactor(s, s.original / s.high) == Some(1.0)
    ensures RopeFactor(s, s.original / s.low) == Some(s.factor)
  {
    BoundOrder(s);
    BlendEnds(s.factor);
    Involution(s.original, s.high);
    Involution(s.original, s.low);
    assert Smooth(s, s.original / s.high) == 1.0;
    assert Smooth(s, s.original / s.low) == 0.0;
  }

  lemma Involution(o: real, b: real)
    requires 0.0 < o && 0.0 < b
    ensures 0.0 < o / b && o / (o / b) == b
  {
    var l := o / b;
    assert l * b == o;
    ScaleOrder(l, 0.0, b);
    Cancel(o / l, b, l);
  }

  // ---------------------------------------------------------------- the converter

  class LlamaModel {
    var numAttentionHeads: nat
    var numKeyValueHeads: nat
    var hiddenSize: nat
    var ropeFactor: real
    var lowFrequencyFactor: real
    var highFrequencyFactor: real
    var originalMaxPositionEmbeddings: nat
    var factors: seq<Float>
    var skipRepack: bool

    constructor (heads: nat, kvHeads: nat, hidden: nat, factor: real, low: real, high: real, original: nat)
      ensures numAttentionHeads == heads && numKeyValueHeads == kvHeads && hiddenSize == hidden
      ensures ropeFactor == factor && lowFrequencyFactor == low && highFrequencyFactor == high
      ensures originalMaxPositionEmbeddings == original && factors == [] && !skipRepack
    {
      numAttentionHeads, numKeyValueHeads, hiddenSize := heads, kvHeads, hidden;
      ropeFactor, lowFrequencyFactor, highFrequencyFactor := factor, low, high;
      originalMaxPositionEmbeddings, factors, skipRepack := original, [], false;
    }

    /** Query tensors use the attention heads, key tensors the key-value heads if set. */
    function HeadsFor(name: string): Option<nat>
      reads this
    {
      if HasSuffix(name, "attn_q.weight") || HasSuffix(name, "attn_q_proj.weight") then
        Some(numAttentionHeads)
      else if HasSuffix(name, "attn_k.weight") || HasSuffix(name, "attn_k_proj.weight") then
        Some(Or(numKeyValueHeads, numAttentionHeads))
      else None
    }

    /** The scaling in force, zero fields replaced by their defaults. */
    function ScalingInForce(): (s: Scaling)
      reads this`ropeFactor, this`lowFrequencyFactor, this`highFrequencyFactor, this`originalMaxPositionEmbeddings
      ensures s.factor != 0.0 && s.low != 0.0 && s.high != 0.0 && 0.0 < s.original
    {
      Scaling(OrReal(ropeFactor, 8.0), OrReal(lowFrequencyFactor, 1.0), OrReal(highFrequencyFactor, 4.0),
              Or(originalMaxPositionEmbeddings, 8192) as real)
    }

    lemma ScalingMeans()
      ensures ScalingInForce() ==
              Scaling(if ropeFactor != 0.0 then ropeFactor else 8.0,
                      if lowFrequencyFactor != 0.0 then lowFrequencyFactor else 1.0,
                      if highFrequencyFactor != 0.0 then highFrequencyFactor else 4.0,
                      if originalMaxPositionEmbeddings != 0 then originalMaxPositionEmbeddings as real else 8192.0)
    {
    }

    method Repack<T>(name: string, data: seq<T>, shape: Shape) returns (r: Result<seq<T>>)
      requires |data| == Size(shape)
      ensures r.Ok? <==> HeadsFor(name).Some? && Repacked(Tensor(shape, data), HeadsFor(name).value).Ok?
      ensures r.Ok? ==> r.value == Repacked(Tensor(shape, data), HeadsFor(name).value).value.data
      ensures var query := HasSuffix(name, "attn_q.weight") || HasSuffix(name, "attn_q_proj.weight");
              var key := HasSuffix(name, "attn_k.weight") || HasSuffix(name, "attn_k_proj.weight");
              var heads := if query || numKeyValueHeads == 0 then numAttentionHeads else numKeyValueHeads;
        && (r.Ok? <==> (query || key) && heads > 0 && |shape| == 2
                       && (shape[0] % (2 * heads) == 0 || shape[1] == 0))
        && (r.Ok? ==> MovedByHead(Tensor(shape, data), Tensor(shape, r.value), heads))
    {
      hide Repacked, MovedByHead, Size;
      var dims := [];
      for i := 0 to |shape|
        invariant dims == shape[..i]
      {
        dims := dims + [shape[i]];
      }
      assert dims == shape;

      var heads;
      if HasSuffix(name, "attn_q.weight") || HasSuffix(name, "attn_q_proj.weight") {
        heads := numAttentionHeads;
      } else if HasSuffix(name, "attn_k.weight") || HasSuffix(name, "attn_k_proj.weight") {
        heads := Or(numKeyValueHeads, numAttentionHeads);
      } else {
        return Err("unknown tensor for repack");
      }
      r := RepackHeads(heads, data, dims);
      RepackAccepts(Tensor(shape, data), heads);
      if r.Ok? {
        RepackIsMovedByHead(Tensor(shape, data), heads);
        SameShape(Tensor(shape, data), heads);
      }
    }

    method RepackHeads<T>(heads: nat, data: seq<T>, dims: Shape) returns (r: Result<seq<T>>)
      requires |data| == Size(dims)
      ensures r.Ok? <==> Repacked(Tensor(dims, data), heads).Ok?
      ensures r.Ok? ==> r.value == Repacked(Tensor(dims, data), heads).value.data
    {
      if heads == 0 || dims == [] { return Err("division by zero or no dimension"); }
      var n := new Dense(dims, data);
      var err := n.Reshape([heads, 2, dims[0] / heads / 2] + dims[1..]);
      if err.Err? { return Err("shape mismatch"); }
      err := n.T(SWAP_MIDDLE);
      if err.Err? { return Err("axes are not a permutation"); }
      err := n.Reshape(dims);
      if err.Err? { return Err("shape mismatch"); }
      RepackAccepts(Tensor(dims, data), heads);
      var f32s := AppendRows(n.value);
      return Ok(f32s);
    }

    method AppendRows<T>(t: Tensor<T>) returns (f32s: seq<T>)
      requires t.Wf() && |t.shape| == 2
      ensures f32s == t.data
    {
      var rows := SelectRows(t);
      f32s := [];
      for i := 0 to |rows|
        invariant f32s == Joined(rows[..i])
      {
        f32s := f32s + rows[i];
        assert rows[..i + 1][..i] == rows[..i];
      }
      assert rows[..|rows|] == rows;
      SelectRowsJoin(t);
    }

    /** Appends one factor for each even rotary dimension; `wavelength(i)` is the wavelength of
        dimension i.  Without heads the rotary dimension divides by zero. */
    method AppendRopeFactors(wavelength: nat -> real) returns (r: Result<()>)
      modifies this`factors
      ensures r.Ok? <==> numAttentionHeads > 0
      ensures r.Err? ==> factors == old(factors)
      ensures r.Ok? ==>
        var count := (hiddenSize / numAttentionHeads + 1) / 2;
        && |factors| == |old(factors)| + count
        && factors[..|old(factors)|] == old(factors)
        && forall k :: 0 <= k < count ==>
             factors[|old(factors)| + k] == RopeFactor(
               Scaling(if ropeFactor != 0.0 then ropeFactor else 8.0,
                       if lowFrequencyFactor != 0.0 then lowFrequencyFactor else 1.0,
                       if highFrequencyFactor != 0.0 then highFrequencyFactor else 4.0,
                       if originalMaxPositionEmbeddings != 0 then originalMaxPositionEmbeddings as real else 8192.0),
               wavelength(2 * k))
    {
      if numAttentionHeads == 0 { return Err("integer divide by zero"); }
      ScalingMeans();
      hide ScalingInForce, RopeFactor;
      var dim := hiddenSize / numAttentionHeads;
      ghost var before := factors;
      var i := 0;
      while i < dim
        invariant 0 <= i <= dim + 1 && i % 2 == 0
        invariant |factors| == |before| + i / 2 && factors[..|before|] == before
        invariant forall k :: 0 <= k < i / 2 ==>
          factors[|before| + k] == RopeFactor(ScalingInForce(), wavelength(2 * k))
      {
        assert i == 2 * (i / 2);
        var f := NextFactor(wavelength(i));
        factors := factors + [f];
        i := i + 2;
      }
      return Ok(());
    }

    method NextFactor(wavelength: real) returns (f: Float)
      ensures f == RopeFactor(ScalingInForce(), wavelength)
    {
      var factor := OrReal(ropeFactor, 8.0);
      var factorLow := OrReal(lowFrequencyFactor, 1.0);
      var factorHigh := OrReal(highFrequencyFactor, 4.0);
      var original := Or(originalMaxPositionEmbeddings, 8192) as real;
      var longBound := original / factorLow;
      var shortBound := original / factorHigh;
      if wavelength < shortBound {
        return Some(1.0);
      } else if wavelength > longBound {
        return Some(factor);
      }
      if wavelength == 0.0 || factorHigh == factorLow { return None; }
      var smooth := (original / wavelength - factorLow) / (factorHigh - factorLow);
      var blend := (1.0 - smooth) / factor + smooth;
      return if blend == 0.0 then None else Some(1.0 / blend);
    }

    /** What is handed on for a tensor: query and key tensors repacked unless that is switched
        off, all others as they are. */
    ghost predicate HandsOn(t: Source<Float>, out: Output<Float>)
      requires t.tensor.Wf()
      reads this
    {
      && out.name == t.name && out.kind == t.kind && out.shape == t.tensor.shape
      && if HeadsFor(t.name).None? || skipRepack then out.data == Ok(t.tensor.data) else
           var repacked := Repacked(t.tensor, HeadsFor(t.name).value);
           (out.data.Ok? <==> repacked.Ok?) && (out.data.Ok? ==> out.data.value == repacked.value.data)
    }

    /** The rope factors as a tensor of their own, if there are any, then every tensor in
        input order. */
    method Tensors(ts: seq<Source<Float>>) returns (out: seq<Output<Float>>)
      requires AllWf(ts)
      ensures var ropes := if factors == [] then []
                           else [Output("rope_freqs.weight", 0, [|factors|], Ok(factors))];
        && |out| == |ropes| + |ts| && out[..|ropes|] == ropes
        && forall k :: 0 <= k < |ts| ==> HandsOn(ts[k], out[|ropes| + k])
    {
      hide Repacked, Size;
      ghost var ropes := if factors == [] then [] else [RopeTensor(factors)];
      out := [];
      if |factors| > 0 {
        out := out + [Output("rope_freqs.weight", 0, [|factors|], Ok(factors))];
      }
      for k := 0 to |ts|
        invariant |out| == |ropes| + k && out[..|ropes|] == ropes
        invariant forall j :: 0 <= j < k ==> HandsOn(ts[j], out[|ropes| + j])
      {
        var data := HandOn(ts[k]);
        out := out + [Output(ts[k].name, ts[k].kind, ts[k].tensor.shape, data)];
      }
    }

    method HandOn(t: Source<Float>) returns (data: Result<seq<Float>>)
      requires t.tensor.Wf()
      ensures HandsOn(t, Output(t.name, t.kind, t.tensor.shape, data))
    {
      hide Repacked, Size;
      var named := HasSuffix(t.name, "attn_q.weight") || HasSuffix(t.name, "attn_k.weight")
                   || HasSuffix(t.name, "attn_q_proj.weight") || HasSuffix(t.name, "attn_k_proj.weight");
      assert Tensor(t.tensor.shape, t.tensor.data) == t.tensor;
      if named && !skipRepack {
        data := Repack(t.name, t.tensor.data, t.tensor.shape);
      } else {
        data := Ok(t.tensor.data);
      }
    }
  }

  function RopeTensor(factors: seq<Float>): Output<Float> {
    Output("rope_freqs.weight", 0, [|factors|], Ok(factors))
  }

  /** The factors appended for nondecreasing wavelengths are themselves nondecreasing and
      stay between 1 and the scaling factor. */
  lemma RopeFactorsAscend(s: Scaling, wavelength: nat -> real, j: nat, k: nat)
    requires Sensible(s) && (forall i :: 0.0 < wavelength(i))
    requires forall a, b :: a <= b ==> wavelength(a) <= wavelength(b)
    requires j <= k
    ensures RopeFactor(s, wavelength(2 * j)).Some? && RopeFactor(s, wavelength(2 * k)).Some?
    ensures 1.0 <= RopeFactor(s, wavelength(2 * j)).value <= RopeFactor(s, wavelength(2 * k)).value <= s.factor
  {
    RopeFactorOrder(s, wavelength(2 * j), wavelength(2 * k));
  }
}
