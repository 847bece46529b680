/** The gpt-oss converter: block and scale tensors that share a base name are paired, and a
    pair is written as one scale byte followed by the bytes of its block, group by group. */
module GptOss {
  import opened Basics
  import opened Arith
  import opened RowMajor
  import opened SplitMerge

  type byte = b: nat | b < 256

  // ---------------------------------------------------------------- interleaving

  /** The scale extents, padded with ones to the rank of the blocks. */
  function Padded(scales: Shape, rank: nat): Shape {
    scales + seq(if rank > |scales| then rank - |scales| else 0, i => 1)
  }

  lemma {:induction false} OnesSize(n: nat)
    ensures Size(seq(n, i => 1)) == 1
  {
    hide Times;
    if n > 0 {
      OnesSize(n - 1);
      assert seq(n, i => 1)[1..] == seq(n - 1, i => 1);
      Units(1);
    }
  }

  lemma PaddedSize(scales: Shape, rank: nat)
    ensures Size(Padded(scales, rank)) == Size(scales)
  {
    hide Times, Size;
    var n := if rank > |scales| then rank - |scales| else 0;
    SizeAppend(scales, seq(n, i => 1));
    OnesSize(n);
    Units(Size(scales));
  }

  /** What `WriteTo` concatenates: the scales in front of the blocks along dimension 3. */
  function Interleaved(blocks: Tensor<byte>, scales: Tensor<byte>): (r: Result<Tensor<byte>>)
    requires blocks.Wf() && scales.Wf()
    ensures r.Ok? ==> r.value.Wf()
  {
    if |scales.shape| > |blocks.shape| then Err("index out of range")
    else
      PaddedSize(scales.shape, |blocks.shape|);
      Concat(3, Tensor(Padded(scales.shape, |blocks.shape|), scales.data), blocks)
  }

  datatype Mxfp4 = Mxfp4(blocks: Option<Source<byte>>, scales: Option<Source<byte>>)

  /** Writes the bytes of a pair; a missing half is a nil pointer. */
  method WriteTo(m: Mxfp4) returns (r: Result<seq<byte>>)
    requires m.blocks.Some? ==> m.blocks.value.tensor.Wf()
    requires m.scales.Some? ==> m.scales.value.tensor.Wf()
    ensures r.Ok? <==> m.blocks.Some? && m.scales.Some?
                       && Interleaved(m.blocks.value.tensor, m.scales.value.tensor).Ok?
    ensures r.Ok? ==> r.value == Interleaved(m.blocks.value.tensor, m.scales.value.tensor).value.data
  {
    hide Concat, Size;
    if m.blocks.None? || m.scales.None? { return Err("nil pointer dereference"); }
    var b, s := m.blocks.value.tensor, m.scales.value.tensor;
    var scalesDims := seq(|b.shape|, i => 1);
    for i := 0 to |s.shape|
      invariant i <= |b.shape|
      invariant scalesDims == s.shape[..i] + seq(|b.shape| - i, j => 1)
    {
      if i >= |b.shape| { return Err("index out of range"); }
      scalesDims := scalesDims[i := s.shape[i]];
    }
    assert scalesDims == Padded(s.shape, |b.shape|);
    PaddedSize(s.shape, |b.shape|);
    var out := Concat(3, Tensor(scalesDims, s.data), b);
    if out.Err? { return Err("shapes do not agree"); }
    return Ok(out.value.data);
  }

  /** The first three extents of the blocks, which count the groups. */
  function Groups(blocks: Shape): Shape
    requires |blocks| >= 4
  {
    blocks[..3]
  }

  /** Further extents of the blocks; none if their rank is four, as it should be. */
  function Tail(blocks: Shape): Shape
    requires |blocks| >= 4
  {
    blocks[4..]
  }

  /** Scales to a group: one, unless the scales have a fourth extent of their own. */
  function ScaleWidth(blocks: Shape, scales: Shape): nat
    requires 4 <= |blocks|
  {
    Padded(scales, |blocks|)[3]
  }

  /** Scales fit the blocks: padded, they count the same groups. */
  predicate Matching(blocks: Shape, scales: Shape) {
    && 4 <= |blocks| && |scales| <= |blocks|
    && Padded(scales, |blocks|)[..3] == Groups(blocks) && Padded(scales, |blocks|)[4..] == Tail(blocks)
  }

  /** Scales and blocks are joined exactly if they fit. */
  lemma MatchingJoins(blocks: Tensor<byte>, scales: Tensor<byte>)
    requires blocks.Wf() && scales.Wf()
    ensures Interleaved(blocks, scales).Ok? <==> Matching(blocks.shape, scales.shape)
  {
    hide Size;
    PaddedSize(scales.shape, |blocks.shape|);
    var b, padded := blocks.shape, Padded(scales.shape, |blocks.shape|);
    if |scales.shape| <= |b| && 4 <= |b| {
      if Joinable(padded, b, 3) {
        assert padded[..3] == b[..3] && padded[4..] == b[4..];
      }
      if Matching(b, scales.shape) {
        assert forall i :: 0 <= i < 3 ==> padded[i] == padded[..3][i] == b[..3][i] == b[i];
        assert forall i :: 4 <= i < |b| ==> padded[i] == padded[4..][i - 4] == b[4..][i - 4] == b[i];
      }
    }
  }

  lemma MatchingInterleaves(blocks: Tensor<byte>, scales: Tensor<byte>) returns (out: Tensor<byte>)
    requires blocks.Wf() && scales.Wf() && Matching(blocks.shape, scales.shape)
    ensures Interleaved(blocks, scales) == Ok(out) && out.Wf()
    ensures var g, tail := Groups(blocks.shape), Tail(blocks.shape);
            var v, w := ScaleWidth(blocks.shape, scales.shape), blocks.shape[3];
      && out.shape == g + [v + w] + tail && blocks.shape == g + [w] + tail
      && Size(g + [v] + tail) == Size(scales.shape) && Tensor(g + [v] + tail, scales.data).Wf()
      && Concat(3, Tensor(g + [v] + tail, scales.data), blocks) == Ok(out)
  {
    hide Concat, Times, Size;
    MatchingJoins(blocks, scales);
    var padded := Padded(scales.shape, |blocks.shape|);
    assert padded == padded[..3] + [padded[3]] + padded[4..];
    PaddedSize(scales.shape, |blocks.shape|);
    out := Concat(3, Tensor(padded, scales.data), blocks).value;
  }

  /** Position of an element whose index is split at the fourth extent. */
  lemma Position(g: Shape, x: nat, tail: Shape, i: Index, j: nat, l: Index)
    requires Within(g, i) && j < x && Within(tail, l)
    ensures Within(g + [x] + tail, i + [j] + l)
    ensures Flat(g + [x] + tail, i + [j] + l) ==
            Times(Flat(g, i), Times(x, Size(tail))) + (Times(j, Size(tail)) + Flat(tail, l))
  {
    hide Times, Size, Flat, Within;
    Flat1(x, j);
    FlatAppend([x], [j], tail, l);
    FlatAppend(g, i, [x] + tail, [j] + l);
    SizeAppend([x], tail);
    Size1(x);
    assert g + [x] + tail == g + ([x] + tail) && i + [j] + l == i + ([j] + l);
  }

  /** Group q of the output is the scales of the group, normally one byte, followed by its
      block; m counts the bytes below the fourth extent, of which there normally is one. */
  lemma ByteLayout(blocks: Tensor<byte>, scales: Tensor<byte>, q: nat, j: nat, m: nat) returns (out: Tensor<byte>)
    requires blocks.Wf() && scales.Wf() && Matching(blocks.shape, scales.shape)
    requires q < Size(Groups(blocks.shape)) && m < Size(Tail(blocks.shape))
    requires j < ScaleWidth(blocks.shape, scales.shape) + blocks.shape[3]
    ensures Interleaved(blocks, scales) == Ok(out)
    ensures var t, v, w := Size(Tail(blocks.shape)), ScaleWidth(blocks.shape, scales.shape), blocks.shape[3];
            var at := Times(q, Times(v + w, t)) + (Times(j, t) + m);
      && at < |out.data|
      && (j < v ==> var from := Times(q, Times(v, t)) + (Times(j, t) + m);
            from < |scales.data| && out.data[at] == scales.data[from])
      && (j >= v ==> var from := Times(q, Times(w, t)) + (Times(j - v, t) + m);
            from < |blocks.data| && out.data[at] == blocks.data[from])
  {
    hide Concat, Times, Size, Flat, Unflat, Within;
    out := MatchingInterleaves(blocks, scales);
    var g, tail := Groups(blocks.shape), Tail(blocks.shape);
    var v, w := ScaleWidth(blocks.shape, scales.shape), blocks.shape[3];
    var i, l := Unflat(g, q), Unflat(tail, m);
    ThreeLong(g, i);
    Position(g, v + w, tail, i, j, l);
    ConcatAt(3, Tensor(g + [v] + tail, scales.data), blocks, out, i + [j] + l);
    if j < v {
      Position(g, v, tail, i, j, l);
    } else {
      Position(g, w, tail, i, j - v, l);
      assert (i + [j] + l)[3 := j - v] == i + [j - v] + l;
    }
  }

  lemma ThreeLong(g: Shape, i: Index)
    requires Within(g, i)
    ensures |i| == |g|
  {
  }

  /** The usual case, blocks of w bytes and a scale byte for each: group q takes the bytes from
      q * (1 + w) on, scale byte q first and then block q. */
  lemma GroupBytes(blocks: Tensor<byte>, scales: Tensor<byte>, q: nat, j: nat) returns (out: Tensor<byte>)
    requires blocks.Wf() && scales.Wf() && |blocks.shape| == 4 && scales.shape == blocks.shape[..3]
    requires q < |scales.data| && j < blocks.shape[3]
    ensures Interleaved(blocks, scales) == Ok(out)
    ensures var w := blocks.shape[3];
      && q * (1 + w) + 1 + j < |out.data| && q * w + j < |blocks.data|
      && out.data[q * (1 + w)] == scales.data[q] && out.data[q * (1 + w) + 1 + j] == blocks.data[q * w + j]
  {
    hide Concat, Size;
    var w := blocks.shape[3];
    assert Padded(scales.shape, 4) == scales.shape + [1] && Tail(blocks.shape) == [];
    assert Size([]) == 1 by { OnesSize(0); assert seq(0, i => 1) == []; }
    out := ByteLayout(blocks, scales, q, 0, 0);
    var again := ByteLayout(blocks, scales, q, 1 + j, 0);
    assert Times(q, Times(1 + w, 1)) == q * (1 + w) && Times(q, Times(1, 1)) == q && Times(q, Times(w, 1)) == q * w;
  }

  /** De-interleaving recovers both inputs. */
  lemma InterleaveRoundTrip(blocks: Tensor<byte>, scales: Tensor<byte>)
      returns (out: Tensor<byte>, column: Tensor<byte>)
    requires blocks.Wf() && scales.Wf() && Matching(blocks.shape, scales.shape)
    ensures Interleaved(blocks, scales) == Ok(out) && out.Wf()
    ensures var v, w := ScaleWidth(blocks.shape, scales.shape), blocks.shape[3];
      && Slice(out, 3, 0, v) == Ok(column) && Reshape(column, scales.shape) == Ok(scales)
      && Slice(out, 3, v, v + w) == Ok(blocks)
  {
    hide Concat, Slice, Times, Size, Flat;
    out := MatchingInterleaves(blocks, scales);
    column := Tensor(Groups(blocks.shape) + [ScaleWidth(blocks.shape, scales.shape)] + Tail(blocks.shape), scales.data);
    ConcatThenSlice(3, column, blocks, out);
  }

  /** The extents declared for a pair: two elements to a byte of its blocks. */
  function DeclaredShape(blocks: Shape): Shape
    requires |blocks| >= 4
  {
    [blocks[0], blocks[1], blocks[2] * blocks[3] * 2]
  }

  /** A pair takes 17 bytes for every 32 declared elements exactly if it has sixteen block
      bytes to a scale byte and no further extents that multiply them, or is empty. */
  lemma ByteCount(blocks: Tensor<byte>, scales: Tensor<byte>) returns (out: Tensor<byte>)
    requires blocks.Wf() && scales.Wf() && Matching(blocks.shape, scales.shape)
    ensures Interleaved(blocks, scales) == Ok(out)
    ensures var s, t, v := blocks.shape, Size(Tail(blocks.shape)), ScaleWidth(blocks.shape, scales.shape);
      32 * |out.data| == 17 * Size(DeclaredShape(s)) <==>
      (s[3] == 16 * v && t == 1) || (s[3] == 0 && (v == 0 || t == 0)) || Size(Groups(s)) == 0
  {
    hide Concat, Size;
    out := MatchingInterleaves(blocks, scales);
    var s, g, tail := blocks.shape, Groups(blocks.shape), Tail(blocks.shape);
    var v, w := ScaleWidth(s, scales.shape), s[3];
    SizeAppend(g, [v + w] + tail);
    SizeAppend([v + w], tail);
    Size1(v + w);
    assert g + [v + w] + tail == g + ([v + w] + tail);
    assert [s[0], s[1]] + [s[2] * w * 2] == [s[0], s[1], s[2] * w * 2] && [s[0], s[1]] + [s[2]] == g;
    SizeAppend([s[0], s[1]], [s[2] * w * 2]);
    SizeAppend([s[0], s[1]], [s[2]]);
    Size1(s[2]);
    Size1(s[2] * w * 2);
    Declared(Size([s[0], s[1]]), s[2], w);
    Seventeen(Size(g), v, w, Size(tail));
  }

  lemma Declared(a: nat, b: nat, w: nat)
    ensures Times(a, b * w * 2) == Times(Times(a, b), 2 * w)
  {
  }

  lemma Seventeen(n: nat, v: nat, w: nat, t: nat)
    ensures 32 * Times(n, Times(v + w, t)) == 17 * Times(n, 2 * w) <==>
            (w == 16 * v && t == 1) || (w == 0 && (v == 0 || t == 0)) || n == 0
  {
    var x := Times(v + w, t);
    assert 32 * (n * x) == n * (32 * x) && 17 * (n * (2 * w)) == n * (34 * w);
    Commute(n, 32 * x);
    Commute(n, 34 * w);
    Cancel(32 * x, 34 * w, n);
    Sixteen(v, w, t);
  }

  lemma Sixteen(v: nat, w: nat, t: nat)
    ensures 32 * Times(v + w, t) == 34 * w <==> (w == 16 * v && t == 1) || (w == 0 && (v == 0 || t == 0))
  {
    if t >= 2 {
      Commute(v + w, t);
      Monotone(2, t, v + w);
      Commute(2, v + w);
    }
  }

  // ---------------------------------------------------------------- pairing

  const MXFP4_KIND := 4

  /** What a tensor name says: half of a pair, or a tensor of its own. */
  datatype Role = Blocks(base: string) | Scales(base: string) | Other

  function RoleOf(name: string): (role: Role)
    ensures role.Blocks? ==> name == role.base + ".blocks"
    ensures role.Scales? ==> name == role.base + ".scales"
  {
    if HasSuffix(name, ".blocks") then Blocks(name[..|name| - 7])
    else if HasSuffix(name, ".scales") then Scales(name[..|name| - 7])
    else Other
  }

  /** The suffix decides the role. */
  lemma RoleBySuffix(name: string)
    ensures RoleOf(name).Blocks? <==> HasSuffix(name, ".blocks")
    ensures RoleOf(name).Scales? <==> HasSuffix(name, ".scales")
  {
    if HasSuffix(name, ".blocks") && HasSuffix(name, ".scales") {
      assert ".blocks"[1] == name[|name| - 6] == ".scales"[1];
    }
  }

  function LastIndex(s: string, c: char): (i: int)
    ensures -1 <= i < |s|
    ensures i >= 0 ==> s[i] == c
    ensures forall j :: i < j < |s| ==> s[j] != c
  {
    if s == [] then -1
    else if s[|s| - 1] == c then |s| - 1
    else LastIndex(s[..|s| - 1], c)
  }

  /** Cutting at the last dot agrees with the suffix test. */
  lemma CutAtLastDot(name: string)
    requires RoleOf(name) != Other
    ensures var dot := LastIndex(name, '.');
      && dot >= 0 && name[..dot] == RoleOf(name).base
      && name[dot + 1..] == (if RoleOf(name).Blocks? then "blocks" else "scales")
  {
    var n := |name| - 7;
    var tail := name[n..];
    assert name[n] == tail[0] == '.';
    forall j | n < j < |name| ensures name[j] != '.' { assert name[j] == tail[j - n]; }
    assert LastIndex(name, '.') == n;
    assert name[n + 1..] == tail[1..];
  }

  function Found(m: map<string, Mxfp4>, base: string): Mxfp4 {
    if base in m then m[base] else Mxfp4(None, None)
  }

  /** One tensor put into its pair; a later tensor of the same role replaces an earlier. */
  function Absorbed(m: map<string, Mxfp4>, t: Source<byte>): map<string, Mxfp4> {
    match RoleOf(t.name)
    case Blocks(base) => m[base := Found(m, base).(blocks := Some(t))]
    case Scales(base) => m[base := Found(m, base).(scales := Some(t))]
    case Other => m
  }

  /** The pairs the first pass collects. */
  function PairUp(ts: seq<Source<byte>>): map<string, Mxfp4> {
    if ts == [] then map[] else Absorbed(PairUp(ts[..|ts| - 1]), ts[|ts| - 1])
  }

  function Others(ts: seq<Source<byte>>): seq<Source<byte>> {
    if ts == [] then [] else
      var front, t := Others(ts[..|ts| - 1]), ts[|ts| - 1];
      if RoleOf(t.name) == Other then front + [t] else front
  }

  /** The other tensors keep their order: those of a first part come before those of the rest. */
  lemma {:induction false} OthersInOrder(ts: seq<Source<byte>>, us: seq<Source<byte>>, t: Source<byte>)
    ensures Others(ts + us) == Others(ts) + Others(us)
    ensures Others([t]) == if HasSuffix(t.name, ".blocks") || HasSuffix(t.name, ".scales") then [] else [t]
    decreases |us|
  {
    hide HasSuffix, RoleOf;
    RoleBySuffix(t.name);
    assert [t][..0] == [];
    if us == [] {
      assert ts + us == ts;
    } else {
      assert (ts + us)[..|ts + us| - 1] == ts + us[..|us| - 1];
      OthersInOrder(ts, us[..|us| - 1], t);
    }
  }

  predicate DistinctNames(ts: seq<Source<byte>>) {
    forall i, j :: 0 <= i < j < |ts| ==> ts[i].name != ts[j].name
  }

  /** Whatever a pair holds came from the input, under the right name, and no pair is empty. */
  lemma {:induction false} PairHoldsOnly(ts: seq<Source<byte>>, base: string)
    ensures var p := Found(PairUp(ts), base);
      && (p.blocks.Some? ==> p.blocks.value in ts && RoleOf(p.blocks.value.name) == Blocks(base))
      && (p.scales.Some? ==> p.scales.value in ts && RoleOf(p.scales.value.name) == Scales(base))
      && (base in PairUp(ts) <==> p.blocks.Some? || p.scales.Some?)
  {
    hide RoleOf;
    if ts != [] { PairHoldsOnly(ts[..|ts| - 1], base); }
  }

  /** With distinct names, every half is in the pair of its base name. */
  lemma {:induction false} PairHoldsAll(ts: seq<Source<byte>>, t: Source<byte>)
    requires DistinctNames(ts) && t in ts
    ensures RoleOf(t.name).Blocks? ==> Found(PairUp(ts), RoleOf(t.name).base).blocks == Some(t)
    ensures RoleOf(t.name).Scales? ==> Found(PairUp(ts), RoleOf(t.name).base).scales == Some(t)
  {
    hide RoleOf;
    var front, last := ts[..|ts| - 1], ts[|ts| - 1];
    if t in front {
      PairHoldsAll(front, t);
      assert t.name != last.name;
    } else {
      assert t == last;
    }
  }

  /** The pairs do not depend on the order of the tensors. */
  lemma PairUpOrderFree(ts: seq<Source<byte>>, us: seq<Source<byte>>)
    requires DistinctNames(ts) && DistinctNames(us) && forall t :: t in ts <==> t in us
    ensures PairUp(ts) == PairUp(us)
  {
    var m, n := PairUp(ts), PairUp(us);
    forall base ensures Found(m, base) == Found(n, base) && (base in m <==> base in n) {
      SamePair(ts, us, base);
    }
    assert forall base :: base in m ==> m[base] == Found(m, base);
    assert forall base :: base in n ==> n[base] == Found(n, base);
  }

  lemma SamePair(ts: seq<Source<byte>>, us: seq<Source<byte>>, base: string)
    requires DistinctNames(ts) && DistinctNames(us) && forall t :: t in ts <==> t in us
    ensures Found(PairUp(ts), base) == Found(PairUp(us), base)
    ensures base in PairUp(ts) <==> base in PairUp(us)
  {
    hide RoleOf, PairUp, Found;
    PairHoldsOnly(ts, base);
    PairHoldsOnly(us, base);
    var p, q := Found(PairUp(ts), base), Found(PairUp(us), base);
    if p.blocks.Some? { PairHoldsAll(us, p.blocks.value); }
    if q.blocks.Some? { PairHoldsAll(ts, q.blocks.value); }
    if p.scales.Some? { PairHoldsAll(us, p.scales.value); }
    if q.scales.Some? { PairHoldsAll(ts, q.scales.value); }
  }

  datatype Written = Plain(source: Source<byte>) | Packed(name: string, kind: nat, shape: Shape, pair: Mxfp4)

  /** The second pass reads four extents of the blocks: without them it panics. */
  predicate Packable(m: Mxfp4) { m.blocks.Some? && |m.blocks.value.tensor.shape| >= 4 }

  /** A walk over a set of keys: each of them once. */
  ghost predicate ListsKeys(order: seq<string>, keys: set<string>) {
    && (forall i, j :: 0 <= i < j < |order| ==> order[i] != order[j])
    && (forall key :: key in order <==> key in keys)
  }

  ghost predicate PackedInOrder(out: seq<Written>, m: map<string, Mxfp4>, order: seq<string>) {
    && ListsKeys(order, m.Keys) && |out| == |order|
    && forall k :: 0 <= k < |order| ==>
         && order[k] in m && Packable(m[order[k]])
         && out[k] == Packed(order[k], 4, DeclaredShape(m[order[k]].blocks.value.tensor.shape), m[order[k]])
  }

  /** The other tensors in order, then exactly one packed tensor for each base name, in
      whatever order the map is walked. */
  method Tensors(ts: seq<Source<byte>>) returns (r: Result<seq<Written>>)
    ensures r.Ok? <==> forall base :: base in PairUp(ts) ==> Packable(PairUp(ts)[base])
    ensures r.Ok? ==> |Others(ts)| <= |r.value|
    ensures r.Ok? ==> forall k :: 0 <= k < |Others(ts)| ==> r.value[k] == Plain(Others(ts)[k])
    ensures r.Ok? ==> exists order :: PackedInOrder(r.value[|Others(ts)|..], PairUp(ts), order)
  {
    var out, mxfp4s := Collect(ts);
    var packed :- PackAll(mxfp4s);
    assert (out + packed)[|out|..] == packed;
    return Ok(out + packed);
  }

  /** The second pass. */
  method PackAll(m: map<string, Mxfp4>) returns (r: Result<seq<Written>>)
    ensures r.Ok? <==> forall base :: base in m ==> Packable(m[base])
    ensures r.Ok? ==> exists order :: PackedInOrder(r.value, m, order)
  {
    var rest, out := m.Keys, [];
    ghost var order := [];
    while rest != {}
      invariant rest <= m.Keys && |out| == |order| && ListsKeys(order, m.Keys - rest)
      invariant forall k :: 0 <= k < |order| ==>
        && order[k] in m && Packable(m[order[k]])
        && out[k] == Packed(order[k], 4, DeclaredShape(m[order[k]].blocks.value.tensor.shape), m[order[k]])
    {
      var name :| name in rest;
      if !Packable(m[name]) { return Err("nil pointer dereference or index out of range"); }
      var dims := m[name].blocks.value.tensor.shape;
      out := out + [Packed(name, MXFP4_KIND, [dims[0], dims[1], dims[2] * dims[3] * 2], m[name])];
      order := order + [name];
      rest := rest - {name};
    }
    assert m.Keys - rest == m.Keys;
    assert PackedInOrder(out, m, order);
    forall base | base in m ensures Packable(m[base]) {
      assert base in order;
    }
    return Ok(out);
  }

  method AbsorbHalf(m: map<string, Mxfp4>, t: Source<byte>) returns (m': map<string, Mxfp4>)
    requires RoleOf(t.name) != Other
    ensures m' == Absorbed(m, t)
  {
    CutAtLastDot(t.name);
    var dot := LastIndex(t.name, '.');
    var name, suffix := t.name[..dot], t.name[dot + 1..];
    m' := m;
    if name !in m' { m' := m'[name := Mxfp4(None, None)]; }
    if suffix == "blocks" {
      m' := m'[name := m'[name].(blocks := Some(t))];
    } else if suffix == "scales" {
      m' := m'[name := m'[name].(scales := Some(t))];
    }
  }

  /** The first pass. */
  method Collect(ts: seq<Source<byte>>) returns (out: seq<Written>, mxfp4s: map<string, Mxfp4>)
    ensures mxfp4s == PairUp(ts)
    ensures |out| == |Others(ts)| && forall k :: 0 <= k < |out| ==> out[k] == Plain(Others(ts)[k])
  {
    out, mxfp4s := [], map[];
    for i := 0 to |ts|
      invariant mxfp4s == PairUp(ts[..i])
      invariant |out| == |Others(ts[..i])| && forall k :: 0 <= k < |out| ==> out[k] == Plain(Others(ts[..i])[k])
    {
      assert ts[..i + 1][..i] == ts[..i];
      if HasSuffix(ts[i].name, ".blocks") || HasSuffix(ts[i].name, ".scales") {
        mxfp4s := AbsorbHalf(mxfp4s, ts[i]);
      } else {
        out := out + [Plain(ts[i])];
      }
    }
    assert ts[..|ts|] == ts;
  }
}
