/**
 Writing a line's move orders back into the line, in order, the way the move
 engine does on the board: a single order clears its source and then writes
 its destination; a double order clears both sources and then writes the
 destination. The main theorem is that replaying `Merge(line)` on the line
 leaves the merged values packed from index 0, followed by empties.
 */
module LineApply {
  import opened Auxiliary
  import opened Reducer

  function Empties(n: nat): (r: seq<TileObject>)
    ensures |r| == n && forall k | 0 <= k < n :: r[k] == Empty
  {
    seq(n, _ => Empty)
  }

  function TilesOf(vs: seq<int>): (r: seq<TileObject>)
    ensures |r| == |vs| && forall k | 0 <= k < |vs| :: r[k] == Tile(vs[k])
  {
    seq(|vs|, k requires 0 <= k < |vs| => Tile(vs[k]))
  }

  /** A line of length `n` holding tiles `vs` from index 0, then empties. */
  function Packed(vs: seq<int>, n: nat): (r: seq<TileObject>)
    requires |vs| <= n
    ensures |r| == n
  {
    TilesOf(vs) + Empties(n - |vs|)
  }

  /** Reference result of a move on one line: merged values packed at the front. */
  function Slide(line: seq<TileObject>): (r: seq<TileObject>)
    ensures |r| == |line|
  {
    var merged := MergeValues(TileValues(line));
    MergeValuesConserves(TileValues(line));
    TileValuesLength(line);
    Packed(merged, |line|)
  }

  /** No empty slot comes before a tile. */
  predicate Tight(line: seq<TileObject>)
  {
    forall i, j | 0 <= i < j < |line| && line[i].Empty? :: line[j].Empty?
  }

  /** The total face value of the tiles of a line. */
  function LineSum(line: seq<TileObject>): int
  {
    Sum(TileValues(line))
  }

  // ---------------------------------------------------------------------
  // Replaying orders
  // ---------------------------------------------------------------------

  predicate OrderFits(o: MoveOrder, n: nat)
  {
    match o
    case SingleMoveOrder(s, d, _, _) => s < n && d < n
    case DoubleMoveOrder(s1, s2, d, _) => s1 < n && s2 < n && d < n
  }

  predicate AllFit(orders: seq<MoveOrder>, n: nat)
  {
    forall j | 0 <= j < |orders| :: OrderFits(orders[j], n)
  }

  function ApplyOrder(line: seq<TileObject>, o: MoveOrder): (r: seq<TileObject>)
    requires OrderFits(o, |line|)
    ensures |r| == |line|
  {
    match o
    case SingleMoveOrder(s, d, v, _) => line[s := Empty][d := Tile(v)]
    case DoubleMoveOrder(s1, s2, d, v) => line[s1 := Empty][s2 := Empty][d := Tile(v)]
  }

  function ApplyOrders(line: seq<TileObject>, orders: seq<MoveOrder>): (r: seq<TileObject>)
    requires AllFit(orders, |line|)
    ensures |r| == |line|
    decreases |orders|
  {
    if orders == [] then line else ApplyOrders(ApplyOrder(line, orders[0]), orders[1..])
  }

  /** Points an order list earns: the value of every merging order. */
  function ScoreGain(orders: seq<MoveOrder>): int
  {
    if orders == [] then 0
    else
      var o := orders[0];
      (if o.DoubleMoveOrder? || o.wasMerge then o.value else 0) + ScoreGain(orders[1..])
  }

  // ---------------------------------------------------------------------
  // Spreading tokens back onto a line
  // ---------------------------------------------------------------------

  predicate SourcesBelow(tokens: seq<ActionToken>, n: nat)
  {
    forall k | 0 <= k < |tokens| :: tokens[k].source < n
  }

  /** The line of length `n` holding each token's tile at its source. */
  function Spread(tokens: seq<ActionToken>, n: nat): (line: seq<TileObject>)
    requires SourcesBelow(tokens, n)
    ensures |line| == n
  {
    if tokens == [] then Empties(n)
    else Spread(tokens[1..], n)[tokens[0].source := Tile(tokens[0].value)]
  }

  lemma {:induction false} SpreadGrow(tokens: seq<ActionToken>, n: nat)
    requires SourcesBelow(tokens, n)
    ensures Spread(tokens, n + 1) == Spread(tokens, n) + [Empty]
  {
    if tokens != [] {
      SpreadGrow(tokens[1..], n);
    }
  }

  lemma {:induction false} SpreadSnoc(tokens: seq<ActionToken>, t: ActionToken, n: nat)
    requires SourcesBelow(tokens, n) && t.source < n
    requires forall k | 0 <= k < |tokens| :: tokens[k].source != t.source
    ensures SourcesBelow(tokens + [t], n)
    ensures Spread(tokens + [t], n) == Spread(tokens, n)[t.source := Tile(t.value)]
  {
    if tokens != [] {
      assert (tokens + [t])[1..] == tokens[1..] + [t];
      SpreadSnoc(tokens[1..], t, n);
    }
  }

  lemma CondenseSourcesBelow(line: seq<TileObject>)
    ensures SourcesBelow(Condense(line), |line|)
  {
    CondenseShape(line);
    assert Condensed(Condense(line), |line|);
  }

  /** Round trip: spreading the condensed tokens back gives the original line. */
  lemma {:induction false} CondenseSpread(line: seq<TileObject>)
    ensures SourcesBelow(Condense(line), |line|)
    ensures Spread(Condense(line), |line|) == line
  {
    CondenseSourcesBelow(line);
    if line != [] {
      var idx := |line| - 1;
      var before := line[..idx];
      var prefix := Condense(before);
      CondenseSpread(before);
      SpreadGrow(prefix, idx);
      assert Spread(prefix, |line|) == before + [Empty];
      if line[idx].Empty? {
        assert Condense(line) == prefix;
        assert line == before + [Empty];
      } else {
        var v := line[idx].value;
        var t := if |prefix| == idx then NoAction(idx, v) else Move(idx, v);
        assert Condense(line) == prefix + [t];
        SpreadSnoc(prefix, t, |line|);
        assert line == (before + [Empty])[idx := Tile(v)];
      }
    }
  }

  /** Inside a condensed list, slots below the first remaining source are empty. */
  lemma {:induction false} SpreadBelow(g: seq<ActionToken>, n: nat, i: nat, x: nat)
    requires Condensed(g, n) && i <= |g| && x < n
    requires i < |g| ==> x < g[i].source
    ensures SourcesBelow(g[i..], n)
    ensures Spread(g[i..], n)[x] == Empty
    decreases |g| - i
  {
    if i < |g| {
      assert g[i..][1..] == g[i + 1..];
      SpreadBelow(g, n, i + 1, x);
    }
  }

  lemma SpreadHead(g: seq<ActionToken>, n: nat, i: nat)
    requires Condensed(g, n) && i < |g|
    ensures SourcesBelow(g[i..], n) && SourcesBelow(g[i + 1..], n)
    ensures Spread(g[i..], n) == Spread(g[i + 1..], n)[g[i].source := Tile(g[i].value)]
  {
    assert g[i..][1..] == g[i + 1..];
  }

  // ---------------------------------------------------------------------
  // Simulation of the engine's write-back loop over one line
  // ---------------------------------------------------------------------

  /**
   The line `L` after the orders for the first `out` collapsed tokens:
   the values `R` packed at the front, and beyond them the tiles of the
   not-yet-consumed condensed tokens `g[i..]` still at their sources.
   */
  predicate SimState(g: seq<ActionToken>, n: nat, i: nat, out: nat, L: seq<TileObject>, R: seq<int>)
  {
    && Condensed(g, n)
    && out <= i <= |g|
    && |R| == out && |L| == n && out <= n
    && SourcesBelow(g[i..], n)
    && forall x | 0 <= x < n :: L[x] == if x < out then Tile(R[x]) else Spread(g[i..], n)[x]
  }

  lemma StepMove(g: seq<ActionToken>, n: nat, i: nat, out: nat, L: seq<TileObject>, R: seq<int>)
    requires SimState(g, n, i, out, L, R) && i < |g| && g[i].source > out
    ensures SimState(g, n, i + 1, out + 1, L[g[i].source := Empty][out := Tile(g[i].value)], R + [g[i].value])
  {
    var s := g[i].source;
    var L' := L[s := Empty][out := Tile(g[i].value)];
    var R' := R + [g[i].value];
    SpreadHead(g, n, i);
    SpreadBelow(g, n, i + 1, s);
    forall x | 0 <= x < n
      ensures L'[x] == if x < out + 1 then Tile(R'[x]) else Spread(g[i + 1..], n)[x]
    {
      if x < out {
        assert L'[x] == L[x] && R'[x] == R[x];
      } else if x > out && x != s {
        assert L'[x] == L[x] == Spread(g[i..], n)[x];
      }
    }
  }

  lemma StepStay(g: seq<ActionToken>, n: nat, i: nat, out: nat, L: seq<TileObject>, R: seq<int>)
    requires SimState(g, n, i, out, L, R) && i < |g| && g[i].source == out
    ensures SimState(g, n, i + 1, out + 1, L, R + [g[i].value])
  {
    var R' := R + [g[i].value];
    SpreadHead(g, n, i);
    forall x | 0 <= x < n
      ensures L[x] == if x < out + 1 then Tile(R'[x]) else Spread(g[i + 1..], n)[x]
    {
      if x < out {
        assert R'[x] == R[x];
      } else {
        assert L[x] == Spread(g[i..], n)[x];
      }
    }
  }

  lemma StepSingle(g: seq<ActionToken>, n: nat, i: nat, out: nat, L: seq<TileObject>, R: seq<int>, v: int)
    requires SimState(g, n, i, out, L, R) && i + 1 < |g| && g[i].source == out
    ensures SimState(g, n, i + 2, out + 1, L[g[i + 1].source := Empty][out := Tile(v)], R + [v])
  {
    var s1 := g[i].source;
    var s2 := g[i + 1].source;
    var L' := L[s2 := Empty][out := Tile(v)];
    var R' := R + [v];
    assert s1 < s2;
    SpreadHead(g, n, i);
    SpreadHead(g, n, i + 1);
    SpreadBelow(g, n, i + 2, s2);
    forall x | 0 <= x < n
      ensures L'[x] == if x < out + 1 then Tile(R'[x]) else Spread(g[i + 2..], n)[x]
    {
      if x < out {
        assert L'[x] == L[x] && R'[x] == R[x];
      } else if x > out && x != s2 {
        assert L'[x] == L[x] == Spread(g[i..], n)[x] == Spread(g[i + 1..], n)[x];
      }
    }
  }

  /** Past the first two remaining tokens, their slots are empty and the rest is as before. */
  lemma SpreadSkipTwo(g: seq<ActionToken>, n: nat, i: nat)
    requires Condensed(g, n) && i + 1 < |g|
    ensures SourcesBelow(g[i..], n) && SourcesBelow(g[i + 2..], n)
    ensures Spread(g[i + 2..], n)[g[i].source] == Empty
    ensures Spread(g[i + 2..], n)[g[i + 1].source] == Empty
    ensures forall x | 0 <= x < n && x != g[i].source && x != g[i + 1].source ::
              Spread(g[i..], n)[x] == Spread(g[i + 2..], n)[x]
  {
    SpreadHead(g, n, i);
    SpreadHead(g, n, i + 1);
    SpreadBelow(g, n, i + 2, g[i].source);
    SpreadBelow(g, n, i + 2, g[i + 1].source);
  }

  lemma StepDouble(g: seq<ActionToken>, n: nat, i: nat, out: nat, L: seq<TileObject>, R: seq<int>, v: int)
    requires SimState(g, n, i, out, L, R) && i + 1 < |g| && g[i].source >= out
    ensures SimState(g, n, i + 2, out + 1,
                     L[g[i].source := Empty][g[i + 1].source := Empty][out := Tile(v)], R + [v])
  {
    var s1 := g[i].source;
    var s2 := g[i + 1].source;
    var L' := L[s1 := Empty][s2 := Empty][out := Tile(v)];
    var R' := R + [v];
    SpreadSkipTwo(g, n, i);
    assert |L'| == n && |R'| == out + 1;
    forall x | 0 <= x < n
      ensures L'[x] == if x < out + 1 then Tile(R'[x]) else Spread(g[i + 2..], n)[x]
    {
      if x < out {
        assert L'[x] == L[x] && R'[x] == R[x];
      } else if x > out && x != s1 && x != s2 {
        assert L'[x] == L[x];
      }
    }
  }

  /**
   Replaying the orders of the collapse from `(i, out)` onward finishes the
   line: the collapsed values packed after `R`, then empties. Orders never
   write a slot that a later order clears, because every source is at or
   beyond its destination and destinations increase.
   */
  lemma {:induction false} Simulate(g: seq<ActionToken>, n: nat, i: nat, out: nat, L: seq<TileObject>, R: seq<int>)
    requires SimState(g, n, i, out, L, R)
    ensures var c := CollapseFrom(g, i, out);
            var orders := ConvertFrom(c, out);
            && out + |c| <= n
            && AllFit(orders, n)
            && ApplyOrders(L, orders) == Packed(R + TokenValues(c), n)
    decreases |g| - i
  {
    var c := CollapseFrom(g, i, out);
    if i == |g| {
      SimulateDone(g, n, i, out, L, R);
    } else {
      CollapseHead(g, i, out);
      var L' := HeadStep(g, n, i, out, L, R);
      Simulate(g, n, i + Consumed(g, i), out + 1, L', R + [c[0].value]);
      var head := if c[0].NoAction? then [] else [OrderOf(c[0], out).value];
      var rest := ConvertFrom(c[1..], out + 1);
      TokenValuesCons(c);
      assert ConvertFrom(c, out) == head + rest;
      assert ApplyOrders(L', rest) == Packed(R + [c[0].value] + TokenValues(c[1..]), n);
      Assemble(L, L', head, rest, R, TokenValues(c), c[0].value, TokenValues(c[1..]), n);
    }
  }

  lemma SimulateDone(g: seq<ActionToken>, n: nat, i: nat, out: nat, L: seq<TileObject>, R: seq<int>)
    requires SimState(g, n, i, out, L, R) && i == |g|
    ensures CollapseFrom(g, i, out) == [] && ConvertFrom([], out) == []
    ensures L == Packed(R, n)
  {
    assert g[i..] == [];
    assert forall x | out <= x < n :: L[x] == Empty;
  }

  /**
   The line after the order (if any) for the first collapsed token from
   `(i, out)`, and the state it leaves.
   */
  lemma HeadStep(g: seq<ActionToken>, n: nat, i: nat, out: nat, L: seq<TileObject>, R: seq<int>)
    returns (L': seq<TileObject>)
    requires SimState(g, n, i, out, L, R) && i < |g|
    ensures var c0 := CollapseFrom(g, i, out)[0];
            && SimState(g, n, i + Consumed(g, i), out + 1, L', R + [c0.value])
            && (c0.NoAction? ==> L' == L)
            && (!c0.NoAction? ==> OrderFits(OrderOf(c0, out).value, n) && ApplyOrder(L, OrderOf(c0, out).value) == L')
  {
    var t := g[i];
    var c0 := CollapseFrom(g, i, out)[0];
    if t.NoAction? && i < |g| - 1 && t.value == g[i + 1].value && QuiescentTileStillQuiescent(i, out, t.source) {
      assert c0 == SingleCombine(g[i + 1].source, t.value + g[i + 1].value);
      L' := L[g[i + 1].source := Empty][out := Tile(c0.value)];
      StepSingle(g, n, i, out, L, R, c0.value);
    } else if i < |g| - 1 && t.value == g[i + 1].value {
      assert c0 == DoubleCombine(t.source, g[i + 1].source, t.value + g[i + 1].value);
      L' := L[t.source := Empty][g[i + 1].source := Empty][out := Tile(c0.value)];
      StepDouble(g, n, i, out, L, R, c0.value);
    } else if t.NoAction? && QuiescentTileStillQuiescent(i, out, t.source) {
      assert c0 == t;
      L' := L;
      StepStay(g, n, i, out, L, R);
    } else {
      assert c0 == Move(t.source, t.value);
      L' := L[t.source := Empty][out := Tile(c0.value)];
      StepMove(g, n, i, out, L, R);
    }
  }

  /** Gluing the head order's effect to the replay of the rest. */
  lemma Assemble(L: seq<TileObject>, L': seq<TileObject>, head: seq<MoveOrder>, rest: seq<MoveOrder>,
                 R: seq<int>, vs: seq<int>, v: int, tail: seq<int>, n: nat)
    requires |L| == n == |L'| && |head| <= 1 && AllFit(rest, n)
    requires head == [] ==> L' == L
    requires |head| == 1 ==> OrderFits(head[0], n) && ApplyOrder(L, head[0]) == L'
    requires vs == [v] + tail && |R| + 1 + |tail| <= n
    requires ApplyOrders(L', rest) == Packed(R + [v] + tail, n)
    ensures AllFit(head + rest, n)
    ensures |R + vs| <= n && ApplyOrders(L, head + rest) == Packed(R + vs, n)
  {
    ApplyPrefix(L, L', head, rest, n);
    assert R + vs == R + [v] + tail;
  }

  lemma ApplyPrefix(L: seq<TileObject>, L': seq<TileObject>, head: seq<MoveOrder>, rest: seq<MoveOrder>, n: nat)
    requires |L| == n == |L'| && |head| <= 1 && AllFit(rest, n)
    requires head == [] ==> L' == L
    requires |head| == 1 ==> OrderFits(head[0], n) && ApplyOrder(L, head[0]) == L'
    ensures AllFit(head + rest, n)
    ensures ApplyOrders(L, head + rest) == ApplyOrders(L', rest)
  {
    if |head| == 1 {
      assert (head + rest)[0] == head[0] && (head + rest)[1..] == rest;
      assert forall j | 1 <= j < |head + rest| :: (head + rest)[j] == rest[j - 1];
    } else {
      assert head + rest == rest;
    }
  }

  lemma TokenValuesCons(c: seq<ActionToken>)
    requires |c| > 0
    ensures TokenValues(c) == [c[0].value] + TokenValues(c[1..])
  {
  }

  /**
   Replaying `Merge(line)` on the line, order by order, yields `Slide(line)`:
   the merged values packed from index 0, followed by empties.
   */
  lemma MergeSlides(line: seq<TileObject>)
    ensures AllFit(Merge(line), |line|)
    ensures ApplyOrders(line, Merge(line)) == Slide(line)
  {
    var g := Condense(line);
    var c := Collapse(g);
    InitialState(line);
    Simulate(g, |line|, 0, 0, line, []);
    assert ApplyOrders(line, ConvertFrom(c, 0)) == Packed([] + TokenValues(c), |line|);
    CollapseValues(g, 0, 0);
    CondenseShape(line);
    assert g[0..] == g;
    assert TokenValues(g) == TileValues(line);
    assert [] + TokenValues(c) == MergeValues(TileValues(line));
  }

  /** Before any order, the line is exactly the spread of its condensed tiles. */
  lemma InitialState(line: seq<TileObject>)
    ensures SimState(Condense(line), |line|, 0, 0, line, [])
  {
    var g := Condense(line);
    CondenseShape(line);
    CondenseSpread(line);
    CondenseSourcesBelow(line);
    assert g[0..] == g;
  }

  // ---------------------------------------------------------------------
  // Score
  // ---------------------------------------------------------------------

  /** Convert turns each combine token into exactly one scoring order. */
  lemma {:induction false} ConvertGain(tokens: seq<ActionToken>, base: nat)
    ensures ScoreGain(ConvertFrom(tokens, base)) == CombineGain(tokens)
    decreases |tokens|
  {
    if tokens != [] {
      ConvertGain(tokens[1..], base + 1);
      ConvertHead(tokens, base);
      var rest := ConvertFrom(tokens[1..], base + 1);
      if !tokens[0].NoAction? {
        assert ([OrderOf(tokens[0], base).value] + rest)[1..] == rest;
      }
    }
  }

  /** The score a line adds during a move is the sum of the tiles the 2048 rule creates by merging. */
  lemma MergeScore(line: seq<TileObject>)
    ensures ScoreGain(Merge(line)) == MergeGain(TileValues(line))
  {
    var g := Condense(line);
    CondenseShape(line);
    CollapseGain(g, 0, 0);
    ConvertGain(Collapse(g), 0);
    assert g[0..] == g;
  }

  // ---------------------------------------------------------------------
  // When a line is left alone
  // ---------------------------------------------------------------------

  lemma {:induction false} TilesOfValues(vs: seq<int>)
    ensures TileValues(TilesOf(vs)) == vs
    decreases |vs|
  {
    if vs != [] {
      var p := vs[..|vs| - 1];
      TilesOfValues(p);
      assert TilesOf(vs)[..|vs| - 1] == TilesOf(p);
    }
  }

  lemma {:induction false} PaddingValues(line: seq<TileObject>, m: nat)
    ensures TileValues(line + Empties(m)) == TileValues(line)
    decreases m
  {
    if m > 0 {
      PaddingValues(line, m - 1);
      var padded := line + Empties(m);
      assert padded[|padded| - 1] == Empty;
      assert padded[..|padded| - 1] == line + Empties(m - 1);
      assert TileValues(padded) == TileValues(padded[..|padded| - 1]);
    } else {
      assert line + Empties(m) == line;
    }
  }

  /** A packed line is tight and reads back the values it was packed from. */
  lemma PackedValues(vs: seq<int>, n: nat)
    requires |vs| <= n
    ensures TileValues(Packed(vs, n)) == vs
    ensures Tight(Packed(vs, n))
  {
    TilesOfValues(vs);
    PaddingValues(TilesOf(vs), n - |vs|);
  }

  /** A tight line is its own tile values, packed. */
  lemma {:induction false} TightPacked(line: seq<TileObject>)
    requires Tight(line)
    ensures |TileValues(line)| <= |line| && line == Packed(TileValues(line), |line|)
    decreases |line|
  {
    if line != [] {
      var n := |line|;
      var p := line[..n - 1];
      var vs := TileValues(p);
      TightPacked(p);
      match line[n - 1]
      case Empty =>
        assert Packed(vs, n) == Packed(vs, n - 1) + [Empty];
      case Tile(v) =>
        assert forall k | 0 <= k < n - 1 :: p[k].Tile?;
        assert TilesOf(vs + [v]) == TilesOf(vs) + [Tile(v)];
    }
  }

  /** A move leaves a line alone exactly when it is tight and no two neighbouring tiles are equal. */
  lemma SlideFixpoint(line: seq<TileObject>)
    ensures Slide(line) == line <==> Tight(line) && NoAdjacentEqual(TileValues(line))
  {
    var vs := TileValues(line);
    MergeValuesFixpoint(vs);
    MergeValuesConserves(vs);
    TileValuesLength(line);
    if Slide(line) == line {
      PackedValues(MergeValues(vs), |line|);
    }
    if Tight(line) && NoAdjacentEqual(vs) {
      TightPacked(line);
    }
  }

  /** Sliding keeps the total face value of a line. */
  lemma SlideConserves(line: seq<TileObject>)
    ensures LineSum(Slide(line)) == LineSum(line)
  {
    var vs := TileValues(line);
    MergeValuesConserves(vs);
    TileValuesLength(line);
    PackedValues(MergeValues(vs), |line|);
  }

  /** In a tight line every condensed token is `noAction`: no tile has a gap before it. */
  lemma TightCondensesQuiet(line: seq<TileObject>)
    requires Tight(line)
    ensures forall k | 0 <= k < |Condense(line)| :: Condense(line)[k].NoAction?
  {
    var g := Condense(line);
    CondenseShape(line);
    forall k | 0 <= k < |g|
      ensures g[k].NoAction?
    {
      assert line[g[k].source].Tile?;
      assert forall j | 0 <= j < g[k].source :: line[j].Tile?;
    }
  }

  /** Tokens already in place with no equal neighbours collapse to themselves. */
  lemma {:induction false} CollapseQuiet(g: seq<ActionToken>, idx: nat)
    requires idx <= |g|
    requires forall k | idx <= k < |g| :: g[k].NoAction? && g[k].source == k
    requires forall k | idx <= k < |g| - 1 :: g[k].value != g[k + 1].value
    ensures forall k | 0 <= k < |CollapseFrom(g, idx, idx)| :: CollapseFrom(g, idx, idx)[k].NoAction?
    decreases |g| - idx
  {
    if idx < |g| {
      CollapseQuiet(g, idx + 1);
      var tokens := CollapseFrom(g, idx, idx);
      assert tokens == [g[idx]] + CollapseFrom(g, idx + 1, idx + 1);
    }
  }

  lemma {:induction false} ConvertQuiet(tokens: seq<ActionToken>, base: nat)
    requires forall k | 0 <= k < |tokens| :: tokens[k].NoAction?
    ensures ConvertFrom(tokens, base) == []
    decreases |tokens|
  {
    if tokens != [] {
      ConvertQuiet(tokens[1..], base + 1);
    }
  }

  /**
   A line's orders are empty exactly when the move leaves the line as it
   was; `performMove` reports a change from the order count, so it reports
   one exactly when some line really changes.
   */
  lemma MergeEmptyIff(line: seq<TileObject>)
    ensures Merge(line) == [] <==> Slide(line) == line
  {
    MergeSlides(line);
    if Slide(line) == line {
      SlideFixpoint(line);
      var g := Condense(line);
      CondenseShape(line);
      TightCondensesQuiet(line);
      forall k | 0 <= k < |g| - 1
        ensures g[k].value != g[k + 1].value
      {
        var vs := TileValues(line);
        assert TokenValues(g) == vs;
        assert TokenValues(g)[k] == g[k].value && TokenValues(g)[k + 1] == g[k + 1].value;
        assert vs[k] != vs[k + 1];
      }
      CollapseQuiet(g, 0);
      ConvertQuiet(Collapse(g), 0);
    }
  }

  /**
   A gap-and-pair line: the single order names the far tile as its source
   and the near tile's slot as its destination, flagged as a merge.
   */
  lemma MergeExample()
    ensures Merge([Tile(2), Empty, Tile(2), Empty]) == [SingleMoveOrder(2, 0, 4, true)]
    ensures Slide([Tile(2), Empty, Tile(2), Empty]) == [Tile(4), Empty, Empty, Empty]
  {
    var line := [Tile(2), Empty, Tile(2), Empty];
    var l1, l2, l3 := [Tile(2)], [Tile(2), Empty], [Tile(2), Empty, Tile(2)];
    assert l1[..0] == [];
    assert Condense(l1) == [NoAction(0, 2)];
    assert l2[..1] == l1;
    assert Condense(l2) == [NoAction(0, 2)];
    assert l3[..2] == l2;
    assert Condense(l3) == [NoAction(0, 2), Move(2, 2)];
    assert line[..3] == l3;
    var tokens := Condense(line);
    assert tokens == [NoAction(0, 2), Move(2, 2)];
    assert TileValues(line) == [2, 2] by {
      assert TileValues(line) == TokenValues(tokens) by { CondenseShape(line); }
    }
    assert MergeValues([2, 2]) == [4] by {
      assert [2, 2][2..] == [];
    }
  }
}
