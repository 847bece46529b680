/** The sentence-piece vocabulary: base pieces with their types, then the tokens that
    added_tokens.json maps from content to id. */
module Tokenizer {
  import opened Basics
  import opened Sorting

  datatype PieceType = Normal | Unknown | Control | UserDefined | Unused | Byte

  datatype Piece = Piece(piece: string, score: real, kind: PieceType)

  datatype Vocabulary = Vocabulary(tokens: seq<string>, scores: seq<real>, types: seq<PieceType>)

  datatype Added = Added(id: int, content: string)

  predicate Aligned(v: Vocabulary) { |v.tokens| == |v.scores| == |v.types| }

  // ---------------------------------------------------------------- base pieces

  const GEMMA_TURNS: set<string> := {"<end_of_turn>", "<start_of_turn>"}

  /** Pieces of a special type keep it; any other is normal unless it marks a turn or is
      listed as an additional special token. */
  function TypeOf(p: Piece, special: set<string>): PieceType {
    if p.kind in {Unknown, Control, Unused, Byte} then p.kind
    else if p.piece in GEMMA_TURNS || p.piece in special then Control
    else Normal
  }

  method BaseVocabulary(pieces: seq<Piece>, special: seq<string>) returns (v: Vocabulary)
    ensures Aligned(v) && |v.tokens| == |pieces|
    ensures forall i :: 0 <= i < |pieces| ==>
              && v.tokens[i] == pieces[i].piece && v.scores[i] == pieces[i].score
              && v.types[i] == TypeOf(pieces[i], set s | s in special)
    ensures forall i :: 0 <= i < |pieces| ==>
              var p, type_ := pieces[i], v.types[i];
              && (p.kind in {Unknown, Control, Unused, Byte} ==> type_ == p.kind)
              && (p.kind !in {Unknown, Control, Unused, Byte} ==>
                    type_ == if p.piece == "<end_of_turn>" || p.piece == "<start_of_turn>" || p.piece in special
                             then Control else Normal)
  {
    v := Vocabulary([], [], []);
    for i := 0 to |pieces|
      invariant Aligned(v) && |v.tokens| == i
      invariant forall j :: 0 <= j < i ==>
        && v.tokens[j] == pieces[j].piece && v.scores[j] == pieces[j].score
        && v.types[j] == TypeOf(pieces[j], set s | s in special)
    {
      var p := pieces[i];
      var kind := p.kind;
      if kind !in {Unknown, Control, Unused, Byte} {
        kind := Normal;
        if p.piece in GEMMA_TURNS { kind := Control; }
        for k := 0 to |special|
          invariant kind == if p.piece in GEMMA_TURNS || p.piece in special[..k] then Control else Normal
        {
          if special[k] == p.piece {
            kind := Control;
            break;
          }
        }
      }
      v := Vocabulary(v.tokens + [p.piece], v.scores + [p.score], v.types + [kind]);
    }
  }

  // ---------------------------------------------------------------- added tokens

  /** What the loop makes of the tokens, taken in the given order.  A negative id passes the
      length test and indexes out of range. */
  function Extended(v: Vocabulary, ts: seq<Added>): Result<Vocabulary>
    decreases |ts|
  {
    if ts == [] then Ok(v)
    else if ts[0].id < 0 then Err("index out of range")
    else if ts[0].id < |v.tokens| then
      if v.tokens[ts[0].id] == ts[0].content then Extended(v, ts[1..]) else Err("token mismatch")
    else if ts[0].id != |v.tokens| then Err("invalid token id")
    else Extended(Appended(v, ts[0].content), ts[1..])
  }

  function Appended(v: Vocabulary, content: string): Vocabulary {
    Vocabulary(v.tokens + [content], v.scores + [-1000.0], v.types + [UserDefined])
  }

  predicate SortedById(ts: seq<Added>) {
    forall i, j :: 0 <= i < j < |ts| ==> ts[i].id <= ts[j].id
  }

  /** The list holds every entry of the map once. */
  ghost predicate ListsEntries(ts: seq<Added>, atm: map<string, int>) {
    && (forall i, j :: 0 <= i < j < |ts| ==> ts[i].content != ts[j].content)
    && (forall t :: t in ts <==> t.content in atm && atm[t.content] == t.id)
  }

  predicate IdOrder(t: Added, u: Added) { t.id <= u.id }

  /** `slices.SortFunc` by id; nothing is promised about entries with equal ids. */
  method SortById(ts: seq<Added>) returns (sorted: seq<Added>)
    ensures SortedById(sorted) && multiset(sorted) == multiset(ts)
  {
    SortSorts(ts, IdOrder);
    SortKeeps(ts, IdOrder);
    sorted := Sort(ts, IdOrder);
    assert forall i, j :: 0 <= i < j < |sorted| ==> IdOrder(sorted[i], sorted[j]);
  }

  method AddTokens(v0: Vocabulary, atm: map<string, int>) returns (r: Result<Vocabulary>)
    requires Aligned(v0)
    ensures exists ts :: ListsEntries(ts, atm) && SortedById(ts) && r == Extended(v0, ts)
    ensures r.Ok? <==> Acceptable(v0.tokens, atm)
    ensures r.Ok? ==> Aligned(r.value)
    ensures r.Ok? ==> forall c :: c in atm ==> 0 <= atm[c] < |r.value.tokens| && r.value.tokens[atm[c]] == c
    ensures r.Ok? ==>
              && |v0.tokens| <= |r.value.tokens| && r.value.tokens[..|v0.tokens|] == v0.tokens
              && r.value.scores[..|v0.tokens|] == v0.scores && r.value.types[..|v0.tokens|] == v0.types
              && forall k :: |v0.tokens| <= k < |r.value.tokens| ==>
                   GivesId(atm, k) && r.value.scores[k] == -1000.0 && r.value.types[k] == UserDefined
  {
    var ts := Entries(atm);
    var sorted := SortById(ts);
    SameEntries(ts, sorted, atm);
    AddTokensExact(v0, atm, sorted);
    AddTokensPlaces(v0, atm, sorted);
    var v := v0;
    for i := 0 to |sorted|
      invariant Extended(v0, sorted) == Extended(v, sorted[i..])
    {
      var t := sorted[i];
      assert sorted[i..][1..] == sorted[i + 1..];
      if t.id < |v.tokens| {
        if t.id < 0 { return Err("index out of range"); }
        if v.tokens[t.id] == t.content { continue; }
        return Err("token mismatch");
      }
      if t.id != |v.tokens| { return Err("invalid token id"); }
      v := Vocabulary(v.tokens + [t.content], v.scores + [-1000.0], v.types + [UserDefined]);
    }
    return Ok(v);
  }

  lemma AddTokensPlaces(v: Vocabulary, atm: map<string, int>, ts: seq<Added>)
    requires Aligned(v) && ListsEntries(ts, atm)
    ensures Extended(v, ts).Ok? ==>
              var w := Extended(v, ts).value;
              && Aligned(w) && |v.tokens| <= |w.tokens| && w.tokens[..|v.tokens|] == v.tokens
              && w.scores[..|v.tokens|] == v.scores && w.types[..|v.tokens|] == v.types
              && forall k :: |v.tokens| <= k < |w.tokens| ==>
                   GivesId(atm, k) && w.scores[k] == -1000.0 && w.types[k] == UserDefined
  {
    if Extended(v, ts).Ok? {
      ExtendedPlaces(v, ts);
      var w := Extended(v, ts).value;
      forall k | |v.tokens| <= k < |w.tokens| ensures GivesId(atm, k) {
        assert HasId(ts, k);
        var j :| 0 <= j < |ts| && ts[j].id == k;
        assert ts[j] in ts;
      }
    }
  }

  /** The entries of the map, in whatever order it is walked. */
  method Entries(atm: map<string, int>) returns (ts: seq<Added>)
    ensures ListsEntries(ts, atm)
  {
    ts := [];
    var rest := atm.Keys;
    while rest != {}
      invariant rest <= atm.Keys
      invariant forall i, j :: 0 <= i < j < |ts| ==> ts[i].content != ts[j].content
      invariant forall t :: t in ts <==> t.content in atm && t.content !in rest && atm[t.content] == t.id
    {
      var content :| content in rest;
      ts := ts + [Added(atm[content], content)];
      rest := rest - {content};
    }
  }

  lemma SameEntries(ts: seq<Added>, us: seq<Added>, atm: map<string, int>)
    requires ListsEntries(ts, atm) && multiset(ts) == multiset(us)
    ensures ListsEntries(us, atm)
  {
    SameMultiset(ts, us);
    RearrangedNoDuplicates(ts, us);
    forall i, j | 0 <= i < j < |us| ensures us[i].content != us[j].content {
      assert us[i] in ts && us[j] in ts;
      assert us[i] != us[j];
    }
  }

  // ---------------------------------------------------------------- exactly when it succeeds

  /** Ids below the base size name the piece already there; the others are distinct and
      leave no gap above the base size. */
  ghost predicate Acceptable(tokens: seq<string>, atm: map<string, int>) {
    && (forall c :: c in atm ==> 0 <= atm[c] && (atm[c] < |tokens| ==> tokens[atm[c]] == c))
    && (forall c, d :: c in atm && d in atm && c != d && |tokens| <= atm[c] ==> atm[c] != atm[d])
    && (forall c, k :: c in atm && |tokens| <= k < atm[c] ==> GivesId(atm, k))
  }

  ghost predicate GivesId(atm: map<string, int>, k: int) { exists d :: d in atm && atm[d] == k }

  /** The same on a list of entries. */
  ghost predicate Fits(tokens: seq<string>, ts: seq<Added>) {
    && (forall i :: 0 <= i < |ts| ==> 0 <= ts[i].id && (ts[i].id < |tokens| ==> tokens[ts[i].id] == ts[i].content))
    && (forall i, j :: 0 <= i < j < |ts| && |tokens| <= ts[i].id ==> ts[i].id != ts[j].id)
    && (forall i, k :: 0 <= i < |ts| && |tokens| <= k < ts[i].id ==> HasId(ts, k))
  }

  ghost predicate HasId(ts: seq<Added>, k: int) { exists j :: 0 <= j < |ts| && ts[j].id == k }

  predicate DistinctContents(ts: seq<Added>) {
    forall i, j :: 0 <= i < j < |ts| ==> ts[i].content != ts[j].content
  }

  lemma FitsSkip(tokens: seq<string>, ts: seq<Added>)
    requires ts != [] && 0 <= ts[0].id < |tokens|
    ensures Fits(tokens, ts) <==> tokens[ts[0].id] == ts[0].content && Fits(tokens, ts[1..])
  {
    var rest := ts[1..];
    assert forall i :: 0 <= i < |rest| ==> rest[i] == ts[i + 1];
    forall k | |tokens| <= k ensures HasId(ts, k) <==> HasId(rest, k) {
      if HasId(ts, k) {
        var j :| 0 <= j < |ts| && ts[j].id == k;
        assert rest[j - 1].id == k;
      }
    }
    if tokens[ts[0].id] == ts[0].content && Fits(tokens, rest) {
      forall i | 0 <= i < |ts|
        ensures 0 <= ts[i].id && (ts[i].id < |tokens| ==> tokens[ts[i].id] == ts[i].content)
      {
        if i > 0 { assert ts[i] == rest[i - 1]; }
      }
      forall i, k | 0 <= i < |ts| && |tokens| <= k < ts[i].id ensures HasId(ts, k) {
        assert ts[i] == rest[i - 1];
      }
      forall i, j | 0 <= i < j < |ts| && |tokens| <= ts[i].id ensures ts[i].id != ts[j].id {
        assert ts[i] == rest[i - 1] && ts[j] == rest[j - 1];
      }
    }
  }

  lemma FitsAppend(tokens: seq<string>, ts: seq<Added>)
    requires ts != [] && ts[0].id == |tokens| && SortedById(ts) && DistinctContents(ts)
    ensures Fits(tokens, ts) <==> Fits(tokens + [ts[0].content], ts[1..])
  {
    var rest, n := ts[1..], |tokens|;
    var more := tokens + [ts[0].content];
    assert forall i :: 0 <= i < |rest| ==> rest[i] == ts[i + 1] && n <= rest[i].id;
    assert HasId(ts, n);
    forall k | n < k ensures HasId(ts, k) <==> HasId(rest, k) {
      if HasId(ts, k) {
        var j :| 0 <= j < |ts| && ts[j].id == k;
        assert rest[j - 1].id == k;
      }
    }
    if Fits(tokens, ts) {
      forall i | 0 <= i < |rest| ensures rest[i].id != n { assert ts[0].id != ts[i + 1].id; }
    }
    if Fits(more, rest) {
      forall i | 0 < i < |ts| ensures ts[i].id != n {
        assert ts[i] == rest[i - 1] && more[n] == ts[0].content;
      }
      forall i, j | 0 <= i < j < |ts| && n <= ts[i].id ensures ts[i].id != ts[j].id {
        if i > 0 { assert ts[i] == rest[i - 1] && ts[j] == rest[j - 1]; }
      }
      forall i, k | 0 <= i < |ts| && n <= k < ts[i].id ensures HasId(ts, k) {
        assert ts[i] == rest[i - 1];
      }
    }
  }

  /** The loop succeeds exactly on entries that fit. */
  lemma {:induction false} ExtendedExact(v: Vocabulary, ts: seq<Added>)
    requires SortedById(ts) && DistinctContents(ts)
    ensures Extended(v, ts).Ok? <==> Fits(v.tokens, ts)
    decreases |ts|
  {
    if ts == [] {
    } else if ts[0].id < 0 {
    } else if ts[0].id < |v.tokens| {
      FitsSkip(v.tokens, ts);
      ExtendedExact(v, ts[1..]);
    } else if ts[0].id != |v.tokens| {
      assert !HasId(ts, |v.tokens|);
    } else {
      FitsAppend(v.tokens, ts);
      ExtendedExact(Appended(v, ts[0].content), ts[1..]);
    }
  }

  lemma FitsIsAcceptable(tokens: seq<string>, ts: seq<Added>, atm: map<string, int>)
    requires ListsEntries(ts, atm)
    ensures Fits(tokens, ts) <==> Acceptable(tokens, atm)
  {
    forall c | c in atm ensures Added(atm[c], c) in ts {}
    forall k ensures HasId(ts, k) <==> GivesId(atm, k) {
      if HasId(ts, k) {
        var j :| 0 <= j < |ts| && ts[j].id == k;
        assert ts[j] in ts;
      }
      if GivesId(atm, k) {
        var d :| d in atm && atm[d] == k;
        assert Added(k, d) in ts;
      }
    }
    if Fits(tokens, ts) { FitsThenAcceptable(tokens, ts, atm); }
    if Acceptable(tokens, atm) { AcceptableThenFits(tokens, ts, atm); }
  }

  lemma FitsThenAcceptable(tokens: seq<string>, ts: seq<Added>, atm: map<string, int>)
    requires ListsEntries(ts, atm) && Fits(tokens, ts)
    requires forall k :: HasId(ts, k) <==> GivesId(atm, k)
    ensures Acceptable(tokens, atm)
  {
    forall c | c in atm ensures 0 <= atm[c] && (atm[c] < |tokens| ==> tokens[atm[c]] == c) {
      assert Added(atm[c], c) in ts;
    }
    forall c, d | c in atm && d in atm && c != d && |tokens| <= atm[c] ensures atm[c] != atm[d] {
      assert Added(atm[c], c) in ts && Added(atm[d], d) in ts;
      var i :| 0 <= i < |ts| && ts[i] == Added(atm[c], c);
      var j :| 0 <= j < |ts| && ts[j] == Added(atm[d], d);
    }
    forall c, k | c in atm && |tokens| <= k < atm[c] ensures GivesId(atm, k) {
      assert Added(atm[c], c) in ts;
      assert HasId(ts, k);
    }
  }

  lemma AcceptableThenFits(tokens: seq<string>, ts: seq<Added>, atm: map<string, int>)
    requires ListsEntries(ts, atm) && Acceptable(tokens, atm)
    requires forall k :: HasId(ts, k) <==> GivesId(atm, k)
    ensures Fits(tokens, ts)
  {
    forall i | 0 <= i < |ts| ensures ts[i].content in atm && atm[ts[i].content] == ts[i].id { assert ts[i] in ts; }
  }

  /** On success every entry is at its id, old tokens keep theirs, every new position came
      from an entry, and scores and types keep step. */
  lemma {:induction false} ExtendedPlaces(v: Vocabulary, ts: seq<Added>)
    requires Aligned(v) && Extended(v, ts).Ok?
    ensures var w := Extended(v, ts).value;
      && Aligned(w) && |v.tokens| <= |w.tokens|
      && w.tokens[..|v.tokens|] == v.tokens && w.scores[..|v.tokens|] == v.scores && w.types[..|v.tokens|] == v.types
      && (forall t :: t in ts ==> 0 <= t.id < |w.tokens| && w.tokens[t.id] == t.content)
      && (forall k :: |v.tokens| <= k < |w.tokens| ==>
            HasId(ts, k) && w.scores[k] == -1000.0 && w.types[k] == UserDefined)
    decreases |ts|
  {
    if ts != [] {
      var t, rest := ts[0], ts[1..];
      assert forall u :: u in ts <==> u == t || u in rest;
      var next := if t.id < |v.tokens| then v else Appended(v, t.content);
      ExtendedPlaces(next, rest);
      var w := Extended(v, ts).value;
      assert w.tokens[..|v.tokens|] == w.tokens[..|next.tokens|][..|v.tokens|];
      assert w.scores[..|v.tokens|] == w.scores[..|next.tokens|][..|v.tokens|];
      assert w.types[..|v.tokens|] == w.types[..|next.tokens|][..|v.tokens|];
      assert next.tokens[t.id] == t.content && w.tokens[..|next.tokens|][t.id] == w.tokens[t.id];
      forall k | |v.tokens| <= k < |w.tokens|
        ensures HasId(ts, k) && w.scores[k] == -1000.0 && w.types[k] == UserDefined
      {
        if k < |next.tokens| {
          assert ts[0].id == k;
          assert w.scores[..|next.tokens|][k] == w.scores[k] && w.types[..|next.tokens|][k] == w.types[k];
        } else {
          assert HasId(rest, k);
          var j :| 0 <= j < |rest| && rest[j].id == k;
          assert ts[j + 1].id == k;
        }
      }
    }
  }

  /** Parsing succeeds exactly on acceptable additions, whatever order the map is walked in
      and however equal ids are sorted; then every content is at its id. */
  lemma AddTokensExact(v: Vocabulary, atm: map<string, int>, ts: seq<Added>)
    requires Aligned(v) && ListsEntries(ts, atm) && SortedById(ts)
    ensures Extended(v, ts).Ok? <==> Acceptable(v.tokens, atm)
    ensures Extended(v, ts).Ok? ==>
              var w := Extended(v, ts).value;
              && Aligned(w)
              && (forall c :: c in atm ==> 0 <= atm[c] < |w.tokens| && w.tokens[atm[c]] == c)
              && |v.tokens| <= |w.tokens| && w.tokens[..|v.tokens|] == v.tokens
  {
    ExtendedExact(v, ts);
    FitsIsAcceptable(v.tokens, ts, atm);
    if Extended(v, ts).Ok? {
      ExtendedPlaces(v, ts);
      forall c | c in atm
        ensures 0 <= atm[c] < |Extended(v, ts).value.tokens| && Extended(v, ts).value.tokens[atm[c]] == c
      {
        assert Added(atm[c], c) in ts;
      }
    }
  }

  /** The vocabulary does not depend on the order: two walks give the same one. */
  lemma AddTokensOrderFree(v: Vocabulary, atm: map<string, int>, ts: seq<Added>, us: seq<Added>)
    requires Aligned(v) && ListsEntries(ts, atm) && ListsEntries(us, atm) && SortedById(ts) && SortedById(us)
    ensures Extended(v, ts).Ok? == Extended(v, us).Ok?
    ensures Extended(v, ts).Ok? ==> Extended(v, ts) == Extended(v, us)
  {
    AddTokensExact(v, atm, ts);
    AddTokensExact(v, atm, us);
    if Extended(v, ts).Ok? {
      ExtendedPlaces(v, ts);
      ExtendedPlaces(v, us);
      var w, x := Extended(v, ts).value, Extended(v, us).value;
      NoLonger(v, ts, us);
      NoLonger(v, us, ts);
      forall k | 0 <= k < |w.tokens|
        ensures w.tokens[k] == x.tokens[k] && w.scores[k] == x.scores[k] && w.types[k] == x.types[k]
      {
        if k < |v.tokens| {
          assert w.tokens[k] == w.tokens[..|v.tokens|][k] && x.tokens[k] == x.tokens[..|v.tokens|][k];
          assert w.scores[k] == w.scores[..|v.tokens|][k] && x.scores[k] == x.scores[..|v.tokens|][k];
          assert w.types[k] == w.types[..|v.tokens|][k] && x.types[k] == x.types[..|v.tokens|][k];
        } else {
          assert HasId(ts, k);
          var j :| 0 <= j < |ts| && ts[j].id == k;
          assert ts[j] in ts && ts[j] in us;
        }
      }
      assert w.tokens == x.tokens && w.scores == x.scores && w.types == x.types;
    }
  }

  lemma NoLonger(v: Vocabulary, ts: seq<Added>, us: seq<Added>)
    requires Aligned(v) && Extended(v, ts).Ok? && Extended(v, us).Ok?
    requires forall t :: t in ts <==> t in us
    ensures |Extended(v, ts).value.tokens| <= |Extended(v, us).value.tokens|
  {
    ExtendedPlaces(v, ts);
    ExtendedPlaces(v, us);
    var w := Extended(v, ts).value;
    if |v.tokens| < |w.tokens| {
      assert HasId(ts, |w.tokens| - 1);
      var j :| 0 <= j < |ts| && ts[j].id == |w.tokens| - 1;
      assert ts[j] in us;
    }
  }
}
